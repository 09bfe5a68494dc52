/**
 * The meta-tag extractor of services/metacrawl/task.go: `extractMetaContent`,
 * `parseMetaAttributes` and `parseMetaTags`.
 *
 * `parseMetaTags` drives the tokenizer with two nested loops. It returns only
 * after it has seen a `head` start (or self-closing) tag and, later, a `head`
 * end tag; on every other token stream it loops for ever. The specification
 * functions below therefore return `Option<seq<string>>`, where `None` means
 * "the Go code does not return".
 */
module MetaExtract {
  import opened Wrappers
  import opened HtmlTokens
  import opened GoStrings

  /** Attribute key to the attribute values that select a meta tag. */
  type Registry = map<string, seq<string>>

  /** The registry `NewMetaCrawlTask` installs in every task. */
  function MetaAttrRegistry(): (r: Registry)
    ensures |r| == 2 && "name" in r && "property" in r
    ensures r["name"] == ["description", "keywords"] && r["property"] == ["og:image"]
  {
    map["name" := ["description", "keywords"], "property" := ["og:image"]]
  }

  // ---------------------------------------------------------------------------
  // extractMetaContent and parseMetaAttributes
  // ---------------------------------------------------------------------------

  /** `attrs[k]` is the first attribute whose key is `key`. */
  predicate FirstKeyAt(attrs: seq<Attribute>, key: string, k: int) {
    0 <= k < |attrs| && attrs[k].key == key && forall j :: 0 <= j < k ==> attrs[j].key != key
  }

  /** Index of the first attribute at or after `from` whose key is `key`, if any. */
  function FindKey(attrs: seq<Attribute>, key: string, from: nat): (k: Option<nat>)
    requires from <= |attrs|
    ensures k.None? ==> forall j :: from <= j < |attrs| ==> attrs[j].key != key
    ensures k.Some? ==> from <= k.value < |attrs| && attrs[k.value].key == key
    ensures k.Some? ==> forall j :: from <= j < k.value ==> attrs[j].key != key
    decreases |attrs| - from
  {
    if from == |attrs| then None
    else if attrs[from].key == key then Some(from)
    else FindKey(attrs, key, from + 1)
  }

  /** From any index up to the first `key` attribute, `FindKey` finds that attribute. */
  lemma {:induction false} FindKeyFindsFirst(attrs: seq<Attribute>, key: string, from: nat, k: nat)
    requires from <= k && FirstKeyAt(attrs, key, k)
    ensures FindKey(attrs, key, from) == Some(k)
    decreases k - from
  {
    if from < k {
      assert attrs[from].key != key;
      FindKeyFindsFirst(attrs, key, from + 1, k);
    }
  }

  /**
   * `extractMetaContent`: the trimmed value of the first `content` attribute
   * of a meta tag, or "" if the tag has none.
   */
  function ExtractMetaContent(attrs: seq<Attribute>): (content: string)
    ensures (forall j :: 0 <= j < |attrs| ==> attrs[j].key != "content") ==> content == ""
    ensures IsTrimmed(content)
  {
    match FindKey(attrs, "content", 0)
    case None => ""
    case Some(k) => TrimSpace(attrs[k].val)
  }

  /** The content is the trimmed value of the first `content` attribute. */
  lemma ContentOfFirstContent(attrs: seq<Attribute>, k: nat)
    requires FirstKeyAt(attrs, "content", k)
    ensures ExtractMetaContent(attrs) == TrimSpace(attrs[k].val)
  {
    FindKeyFindsFirst(attrs, "content", 0, k);
  }

  /** The attribute's key is in the registry and its value is one of that key's values. */
  predicate Registered(a: Attribute, registry: Registry) {
    a.key in registry && a.val in registry[a.key]
  }

  /** `attrs[k]` is the first registered attribute. */
  predicate FirstRegisteredAt(attrs: seq<Attribute>, registry: Registry, k: int) {
    0 <= k < |attrs| && Registered(attrs[k], registry) && forall j :: 0 <= j < k ==> !Registered(attrs[j], registry)
  }

  /** Index of the first registered attribute at or after `from`, if any. */
  function FirstRegistered(attrs: seq<Attribute>, registry: Registry, from: nat): (k: Option<nat>)
    requires from <= |attrs|
    ensures k.None? ==> forall j :: from <= j < |attrs| ==> !Registered(attrs[j], registry)
    ensures k.Some? ==> from <= k.value < |attrs| && Registered(attrs[k.value], registry)
    ensures k.Some? ==> forall j :: from <= j < k.value ==> !Registered(attrs[j], registry)
    decreases |attrs| - from
  {
    if from == |attrs| then None
    else if Registered(attrs[from], registry) then Some(from)
    else FirstRegistered(attrs, registry, from + 1)
  }

  /** From any index up to the first registered attribute, `FirstRegistered` finds that attribute. */
  lemma {:induction false} FirstRegisteredFindsFirst(attrs: seq<Attribute>, registry: Registry, from: nat, k: nat)
    requires from <= k && FirstRegisteredAt(attrs, registry, k)
    ensures FirstRegistered(attrs, registry, from) == Some(k)
    decreases k - from
  {
    if from < k {
      assert !Registered(attrs[from], registry);
      FirstRegisteredFindsFirst(attrs, registry, from + 1, k);
    }
  }

  /**
   * `parseMetaAttributes`: for the first attribute (in document order) whose
   * key is registered with its value, that value and the tag's content;
   * ("", "") when no attribute matches.
   */
  function ParseMetaAttributes(attrs: seq<Attribute>, registry: Registry): (r: (string, string))
    ensures (forall j :: 0 <= j < |attrs| ==> !Registered(attrs[j], registry)) ==> r == ("", "")
    ensures IsTrimmed(r.1)
  {
    match FirstRegistered(attrs, registry, 0)
    case None => ("", "")
    case Some(k) => (attrs[k].val, ExtractMetaContent(attrs))
  }

  /** The first registered attribute, in document order, decides the key; the content comes from the whole tag. */
  lemma MetaOfFirstRegistered(attrs: seq<Attribute>, registry: Registry, k: nat)
    requires FirstRegisteredAt(attrs, registry, k)
    ensures ParseMetaAttributes(attrs, registry) == (attrs[k].val, ExtractMetaContent(attrs))
  {
    FirstRegisteredFindsFirst(attrs, registry, 0, k);
  }

  /** With the task's registry, exactly `name=description`, `name=keywords` and `property=og:image` select a tag. */
  lemma RegisteredInTaskRegistry(a: Attribute)
    ensures Registered(a, MetaAttrRegistry()) <==>
      (a.key == "name" && (a.val == "description" || a.val == "keywords")) ||
      (a.key == "property" && a.val == "og:image")
  {
  }

  /** With the task's registry a meta tag yields one of the three field keys, or the unused key "". */
  lemma TaskRegistryKeys(attrs: seq<Attribute>)
    ensures ParseMetaAttributes(attrs, MetaAttrRegistry()).0 in {"", "description", "keywords", "og:image"}
  {
    match FirstRegistered(attrs, MetaAttrRegistry(), 0)
    case None =>
    case Some(k) => RegisteredInTaskRegistry(attrs[k]);
  }

  /** A meta tag `<meta k=v content=c>` whose first attribute is registered gives `(v, TrimSpace(c))`. */
  lemma RegisteredThenContent(attrs: seq<Attribute>, registry: Registry)
    requires |attrs| == 2 && Registered(attrs[0], registry) && attrs[0].key != "content" && attrs[1].key == "content"
    ensures ParseMetaAttributes(attrs, registry) == (attrs[0].val, TrimSpace(attrs[1].val))
  {
    MetaOfFirstRegistered(attrs, registry, 0);
    ContentOfFirstContent(attrs, 1);
  }

  // ---------------------------------------------------------------------------
  // parseMetaTags: the specification
  // ---------------------------------------------------------------------------

  /** The mutable locals of the inner loop: `title` and the `metaResult` map. */
  datatype HeadState = HeadState(title: string, metaResult: map<string, string>)

  /** A Go map read: a missing key reads as "". */
  function Lookup(m: map<string, string>, key: string): string {
    if key in m then m[key] else ""
  }

  /** The slice `parseMetaTags` returns: title, description, keywords, og:image. */
  function Fields(st: HeadState): seq<string> {
    [st.title, Lookup(st.metaResult, "description"), Lookup(st.metaResult, "keywords"), Lookup(st.metaResult, "og:image")]
  }

  /**
   * The outer loop from the `i`-th call of `Next` on. An error ends the input:
   * `complete` is set and the loop spins for ever. A `head` start or
   * self-closing tag enters the inner loop; anything else is skipped.
   */
  function ScanForHead(toks: seq<Token>, registry: Registry, i: nat): Option<seq<string>>
    decreases |toks| - i
  {
    var t := NextToken(toks, i);
    if t.kind == ErrorToken then None
    else if IsStartLike(t) && t.data == "head" then ScanHead(toks, registry, i + 1, HeadState("", map[]))
    else ScanForHead(toks, registry, i + 1)
  }

  /** A `title` start or self-closing tag. */
  predicate IsTitleTag(t: Token) {
    IsStartLike(t) && t.data == "title"
  }

  /** What one pass of the inner loop does: never end, return, or go on from a later token. */
  datatype HeadStepResult = Diverge | Return(fields: seq<string>) | Continue(next: nat, st: HeadState)

  /**
   * One pass of the inner loop at the `i`-th call of `Next`, in state `st`.
   * Its switch has no error case, so an error (which the tokenizer then
   * repeats for ever) means the loop never ends. After a `title` tag the next
   * token is consumed, and becomes the title only if it is text. A `meta` tag
   * writes the key and value `parseMetaAttributes` gives. The `head` end tag
   * returns; every other token is skipped.
   */
  function HeadStep(toks: seq<Token>, registry: Registry, i: nat, st: HeadState): (s: HeadStepResult)
    ensures s.Continue? ==> i < |toks| && s.next <= |toks|
    ensures s.Continue? ==> s.next == if IsTitleTag(toks[i]) then i + 2 else i + 1
  {
    var t := NextToken(toks, i);
    if t.kind == ErrorToken then Diverge
    else if IsStartLike(t) then
      if t.data == "title" then
        var next := NextToken(toks, i + 1);
        if next.kind == ErrorToken then Diverge
        else Continue(i + 2, if next.kind == TextToken then st.(title := TrimSpace(next.data)) else st)
      else if t.data == "meta" then
        var (key, value) := ParseMetaAttributes(t.attr, registry);
        Continue(i + 1, st.(metaResult := st.metaResult[key := value]))
      else Continue(i + 1, st)
    else if t.kind == EndTagToken && t.data == "head" then Return(Fields(st))
    else Continue(i + 1, st)
  }

  /** The inner loop from the `i`-th call of `Next` on, in state `st`. */
  function ScanHead(toks: seq<Token>, registry: Registry, i: nat, st: HeadState): Option<seq<string>>
    decreases |toks| - i
  {
    match HeadStep(toks, registry, i, st)
    case Diverge => None
    case Return(fields) => Some(fields)
    case Continue(next, st') => ScanHead(toks, registry, next, st')
  }

  /** What `parseMetaTags` returns on a document, or `None` if it never returns. */
  function MetaTagsOf(toks: seq<Token>, registry: Registry): Option<seq<string>> {
    ScanForHead(toks, registry, 0)
  }

  // ---------------------------------------------------------------------------
  // parseMetaTags: the loops
  // ---------------------------------------------------------------------------

  /**
   * `parseMetaTags`, with the tokenizer replaced by the document's tokens.
   * Where the Go code would loop for ever, this returns `None`. The inner
   * loop over the head section is `ParseHead`.
   */
  method ParseMetaTags(toks: seq<Token>, registry: Registry) returns (r: Option<seq<string>>)
    ensures r == MetaTagsOf(toks, registry)
  {
    var i := 0;  // calls of Next so far
    var complete := false;
    while !complete
      invariant i <= |toks|
      invariant !complete ==> MetaTagsOf(toks, registry) == ScanForHead(toks, registry, i)
      invariant complete ==> MetaTagsOf(toks, registry) == None
      decreases |toks| - i, !complete
    {
      var token := NextToken(toks, i);
      if token.kind == ErrorToken {
        complete := true;
      } else {
        i := i + 1;
        if IsStartLike(token) && token.data == "head" {
          r := ParseHead(toks, registry, i);
          return;
        }
      }
    }
    // the input ended before any head tag: Go's outer loop spins with `complete` set
    r := None;
  }

  /**
   * The inner loop of `parseMetaTags`, entered after the `i`-th call of
   * `Next` returned a `head` tag, with `title` and `metaResult` still empty.
   */
  method ParseHead(toks: seq<Token>, registry: Registry, i0: nat) returns (r: Option<seq<string>>)
    requires i0 <= |toks|
    ensures r == ScanHead(toks, registry, i0, HeadState("", map[]))
  {
    var i := i0;
    var title := "";
    var metaResult: map<string, string> := map[];
    var complete := false;
    while !complete
      invariant i <= |toks|
      invariant !complete ==> ScanHead(toks, registry, i0, HeadState("", map[])) == ScanHead(toks, registry, i, HeadState(title, metaResult))
      invariant complete ==> ScanHead(toks, registry, i0, HeadState("", map[])) == Some(Fields(HeadState(title, metaResult)))
      decreases |toks| - i, !complete
    {
      var headToken := NextToken(toks, i);
      if headToken.kind == ErrorToken {
        // no case matches; every later Next returns an error too
        ErrorStep(toks, registry, i, HeadState(title, metaResult));
        return None;
      }
      ghost var at := i;
      i := i + 1;
      if IsStartLike(headToken) {
        if headToken.data == "title" {
          var next := NextToken(toks, i);
          if next.kind == ErrorToken {
            TitleErrorStep(toks, registry, at, HeadState(title, metaResult));
            return None;
          }
          i := i + 1;
          if next.kind == TextToken {
            TitleStep(toks, registry, at, HeadState(title, metaResult));
            title := TrimSpace(next.data);
          } else {
            TitleNonTextStep(toks, registry, at, HeadState(title, metaResult));
          }
        }
        if headToken.data == "meta" {
          MetaStep(toks, registry, at, HeadState(title, metaResult));
          var (mkey, mvalue) := ParseMetaAttributes(headToken.attr, registry);
          metaResult := metaResult[mkey := mvalue];
        }
        if headToken.data != "title" && headToken.data != "meta" {
          OtherStartStep(toks, registry, at, HeadState(title, metaResult));
        }
      } else if headToken.kind == EndTagToken && headToken.data == "head" {
        HeadEndStep(toks, registry, at, HeadState(title, metaResult));
        complete := true;
      } else {
        SkipStep(toks, registry, at, HeadState(title, metaResult));
      }
    }
    return Some([title, Lookup(metaResult, "description"), Lookup(metaResult, "keywords"), Lookup(metaResult, "og:image")]);
  }

  // ---------------------------------------------------------------------------
  // parseMetaTags: what it returns and when
  // ---------------------------------------------------------------------------

  /** `t` is "" or the trimmed text right after some `title` tag of the document. */
  predicate TitleFrom(toks: seq<Token>, t: string) {
    t == "" ||
    exists j :: 0 <= j < |toks| - 1 && IsStartLike(toks[j]) && toks[j].data == "title" &&
      toks[j + 1].kind == TextToken && t == TrimSpace(toks[j + 1].data)
  }

  /** `v` is what `parseMetaAttributes` gives for `key` on some `meta` tag of the document. */
  predicate MetaFrom(toks: seq<Token>, registry: Registry, key: string, v: string) {
    exists j :: 0 <= j < |toks| && IsStartLike(toks[j]) && toks[j].data == "meta" &&
      ParseMetaAttributes(toks[j].attr, registry) == (key, v)
  }

  /** Everything the inner loop has stored is trimmed and was read from the document. */
  predicate HeadStateFromDocument(toks: seq<Token>, registry: Registry, st: HeadState) {
    && IsTrimmed(st.title)
    && TitleFrom(toks, st.title)
    && forall key :: key in st.metaResult ==>
         IsTrimmed(st.metaResult[key]) && MetaFrom(toks, registry, key, st.metaResult[key])
  }

  /** The properties of a result of `parseMetaTags`: four trimmed fields, each read from the document. */
  predicate WellFormedResult(toks: seq<Token>, registry: Registry, r: seq<string>) {
    && |r| == 4
    && (forall k :: 0 <= k < 4 ==> IsTrimmed(r[k]))
    && TitleFrom(toks, r[0])
    && (r[1] == "" || MetaFrom(toks, registry, "description", r[1]))
    && (r[2] == "" || MetaFrom(toks, registry, "keywords", r[2]))
    && (r[3] == "" || MetaFrom(toks, registry, "og:image", r[3]))
  }

  /** `toks[e]` is a `head` end tag and no token from `i` to `e` is an error. */
  predicate HeadEndAt(toks: seq<Token>, i: nat, e: nat) {
    && i <= e < |toks|
    && toks[e].kind == EndTagToken && toks[e].data == "head"
    && forall j :: i <= j <= e ==> toks[j].kind != ErrorToken
  }

  lemma FieldsWellFormed(toks: seq<Token>, registry: Registry, st: HeadState)
    requires HeadStateFromDocument(toks, registry, st)
    ensures WellFormedResult(toks, registry, Fields(st))
  {
  }

  /** Storing the text after a `title` tag keeps the state read from the document. */
  lemma StoreTitleFromDocument(toks: seq<Token>, registry: Registry, st: HeadState, j: nat)
    requires HeadStateFromDocument(toks, registry, st)
    requires j + 1 < |toks| && IsStartLike(toks[j]) && toks[j].data == "title" && toks[j + 1].kind == TextToken
    ensures HeadStateFromDocument(toks, registry, st.(title := TrimSpace(toks[j + 1].data)))
  {
    assert TitleFrom(toks, TrimSpace(toks[j + 1].data));
  }

  /** Storing what a `meta` tag gives keeps the state read from the document. */
  lemma StoreMetaFromDocument(toks: seq<Token>, registry: Registry, st: HeadState, j: nat)
    requires HeadStateFromDocument(toks, registry, st)
    requires j < |toks| && IsStartLike(toks[j]) && toks[j].data == "meta"
    ensures var (key, value) := ParseMetaAttributes(toks[j].attr, registry);
      HeadStateFromDocument(toks, registry, st.(metaResult := st.metaResult[key := value]))
  {
    var (key, value) := ParseMetaAttributes(toks[j].attr, registry);
    assert MetaFrom(toks, registry, key, value);
  }

  /** One pass of the inner loop keeps the state read from the document, and returns a well-formed result. */
  lemma HeadStepFromDocument(toks: seq<Token>, registry: Registry, i: nat, st: HeadState)
    requires HeadStateFromDocument(toks, registry, st)
    ensures HeadStep(toks, registry, i, st).Continue? ==> HeadStateFromDocument(toks, registry, HeadStep(toks, registry, i, st).st)
    ensures HeadStep(toks, registry, i, st).Return? ==> WellFormedResult(toks, registry, HeadStep(toks, registry, i, st).fields)
  {
    var t := NextToken(toks, i);
    if t.kind != ErrorToken && IsStartLike(t) {
      if t.data == "title" {
        if NextToken(toks, i + 1).kind == TextToken {
          StoreTitleFromDocument(toks, registry, st, i);
        }
      } else if t.data == "meta" {
        StoreMetaFromDocument(toks, registry, st, i);
      }
    } else if t.kind == EndTagToken && t.data == "head" {
      FieldsWellFormed(toks, registry, st);
    }
  }

  /** When the inner loop returns, its result is well formed. */
  lemma {:induction false} ScanHeadWellFormed(toks: seq<Token>, registry: Registry, i: nat, st: HeadState)
    requires HeadStateFromDocument(toks, registry, st)
    ensures ScanHead(toks, registry, i, st).Some? ==> WellFormedResult(toks, registry, ScanHead(toks, registry, i, st).value)
    decreases |toks| - i
  {
    HeadStepFromDocument(toks, registry, i, st);
    match HeadStep(toks, registry, i, st)
    case Diverge =>
    case Return(_) =>
    case Continue(next, st') => ScanHeadWellFormed(toks, registry, next, st');
  }

  /** One pass of the inner loop that goes on has read no error; one that returns has read the `head` end tag. */
  lemma HeadStepReadsNoError(toks: seq<Token>, registry: Registry, i: nat, st: HeadState)
    ensures HeadStep(toks, registry, i, st).Continue? ==>
      forall j :: i <= j < HeadStep(toks, registry, i, st).next ==> toks[j].kind != ErrorToken
    ensures HeadStep(toks, registry, i, st).Return? ==> HeadEndAt(toks, i, i)
  {
  }

  /** The inner loop returns only at a `head` end tag, with no end of input before it. */
  lemma {:induction false} ScanHeadReachesEnd(toks: seq<Token>, registry: Registry, i: nat, st: HeadState)
    ensures ScanHead(toks, registry, i, st).Some? ==> exists e :: HeadEndAt(toks, i, e)
    decreases |toks| - i
  {
    HeadStepReadsNoError(toks, registry, i, st);
    match HeadStep(toks, registry, i, st)
    case Diverge =>
    case Return(_) =>
    case Continue(next, st') =>
      ScanHeadReachesEnd(toks, registry, next, st');
      if ScanHead(toks, registry, next, st').Some? {
        var e :| HeadEndAt(toks, next, e);
        assert HeadEndAt(toks, i, e);
      }
  }

  /** `toks[h]` is the first `head` start or self-closing tag from `i` on. */
  predicate FirstHeadStartAt(toks: seq<Token>, i: nat, h: nat) {
    && i <= h < |toks|
    && IsStartLike(toks[h]) && toks[h].data == "head"
    && forall j :: i <= j < h ==> !(IsStartLike(toks[j]) && toks[j].data == "head")
  }

  lemma {:induction false} ScanForHeadReturns(toks: seq<Token>, registry: Registry, i: nat)
    ensures ScanForHead(toks, registry, i).Some? ==>
      WellFormedResult(toks, registry, ScanForHead(toks, registry, i).value) &&
      exists h, e :: FirstHeadStartAt(toks, i, h) && h < e && HeadEndAt(toks, i, e)
    decreases |toks| - i
  {
    var t := NextToken(toks, i);
    if t.kind == ErrorToken {
    } else if IsStartLike(t) && t.data == "head" {
      var st := HeadState("", map[]);
      ScanHeadWellFormed(toks, registry, i + 1, st);
      ScanHeadReachesEnd(toks, registry, i + 1, st);
      if ScanHead(toks, registry, i + 1, st).Some? {
        var e :| HeadEndAt(toks, i + 1, e);
        assert FirstHeadStartAt(toks, i, i) && HeadEndAt(toks, i, e);
      }
    } else {
      ScanForHeadReturns(toks, registry, i + 1);
      if ScanForHead(toks, registry, i + 1).Some? {
        var h, e :| FirstHeadStartAt(toks, i + 1, h) && h < e && HeadEndAt(toks, i + 1, e);
        assert FirstHeadStartAt(toks, i, h) && HeadEndAt(toks, i, e);
      }
    }
  }

  /**
   * When `parseMetaTags` returns, it returns four trimmed fields in the order
   * title, description, keywords, og:image, each read from the document, and
   * it has seen the first `head` start tag and then a `head` end tag with no
   * end of input before them.
   */
  lemma MetaTagsOfReturns(toks: seq<Token>, registry: Registry)
    ensures MetaTagsOf(toks, registry).Some? ==>
      WellFormedResult(toks, registry, MetaTagsOf(toks, registry).value) &&
      exists h, e :: FirstHeadStartAt(toks, 0, h) && h < e && HeadEndAt(toks, 0, e)
  {
    ScanForHeadReturns(toks, registry, 0);
  }

  /** A document with no `head` start tag never makes `parseMetaTags` return. */
  lemma NoHeadNeverReturns(toks: seq<Token>, registry: Registry)
    requires forall j :: 0 <= j < |toks| ==> !(IsStartLike(toks[j]) && toks[j].data == "head")
    ensures MetaTagsOf(toks, registry) == None
  {
    MetaTagsOfReturns(toks, registry);
  }

  /** Nor does a document with no `head` end tag. */
  lemma NoHeadEndNeverReturns(toks: seq<Token>, registry: Registry)
    requires forall j :: 0 <= j < |toks| ==> !(toks[j].kind == EndTagToken && toks[j].data == "head")
    ensures MetaTagsOf(toks, registry) == None
  {
    MetaTagsOfReturns(toks, registry);
  }

  /** The outer loop skips every token before the first `head` start tag. */
  lemma {:induction false} ScanForHeadSkips(toks: seq<Token>, registry: Registry, i: nat, h: nat)
    requires FirstHeadStartAt(toks, i, h)
    requires forall j :: i <= j < h ==> toks[j].kind != ErrorToken
    ensures ScanForHead(toks, registry, i) == ScanHead(toks, registry, h + 1, HeadState("", map[]))
    decreases h - i
  {
    if i < h {
      ScanForHeadSkips(toks, registry, i + 1, h);
    }
  }

  /**
   * A head section runs to its `head` end tag when no earlier `head` end tag
   * and no end of input comes first, and the token just before the end tag is
   * not a `title` tag (whose look-ahead would consume the end tag).
   */
  lemma {:induction false} ScanHeadPlainBody(toks: seq<Token>, registry: Registry, i: nat, e: nat, st: HeadState)
    requires HeadEndAt(toks, i, e)
    requires forall j :: i <= j < e ==> !(toks[j].kind == EndTagToken && toks[j].data == "head")
    requires i < e ==> !IsTitleTag(toks[e - 1])
    ensures ScanHead(toks, registry, i, st).Some?
    decreases e - i
  {
    if i < e {
      var s := HeadStep(toks, registry, i, st);
      assert s.Continue? && s.next <= e;
      ScanHeadPlainBody(toks, registry, s.next, e, s.st);
    }
  }

  /**
   * Conversely, `parseMetaTags` does return when the input does not end before
   * a `head` end tag that follows the first `head` start tag, with no other
   * `head` end tag in between and no `title` tag right before it.
   */
  lemma ReturnsAtHeadEnd(toks: seq<Token>, registry: Registry, h: nat, e: nat)
    requires FirstHeadStartAt(toks, 0, h) && h < e && HeadEndAt(toks, 0, e)
    requires forall j :: h < j < e ==> !(toks[j].kind == EndTagToken && toks[j].data == "head")
    requires !IsTitleTag(toks[e - 1])
    ensures MetaTagsOf(toks, registry).Some?
  {
    ScanForHeadSkips(toks, registry, 0, h);
    ScanHeadPlainBody(toks, registry, h + 1, e, HeadState("", map[]));
  }

  /**
   * The tokenizer reads the content of a `title` element as raw text up to
   * `</title>`, so the token after a `title` tag is text, the `title` end
   * tag, or the end of the input.
   */
  predicate RawTitleText(toks: seq<Token>) {
    forall j :: 0 <= j < |toks| - 1 && IsTitleTag(toks[j]) ==>
      toks[j + 1].kind == TextToken || (toks[j + 1].kind == EndTagToken && toks[j + 1].data == "title")
  }

  /**
   * On the tokenizer's output, `parseMetaTags` returns exactly when the input
   * does not end before a `head` end tag that follows the first `head` start
   * tag: no condition on the titles in between is needed.
   */
  lemma ReturnsAtHeadEndOfRawTitles(toks: seq<Token>, registry: Registry, h: nat, e: nat)
    requires RawTitleText(toks)
    requires FirstHeadStartAt(toks, 0, h) && h < e && HeadEndAt(toks, 0, e)
    requires forall j :: h < j < e ==> !(toks[j].kind == EndTagToken && toks[j].data == "head")
    ensures MetaTagsOf(toks, registry).Some?
  {
    assert toks[e - 1 + 1] == toks[e];
    ReturnsAtHeadEnd(toks, registry, h, e);
  }

  // ---------------------------------------------------------------------------
  // parseMetaTags: how meta tags update the fields
  // ---------------------------------------------------------------------------

  /** One pass of the inner loop depends on its state only through the four fields. */
  lemma HeadStepDependsOnFields(toks: seq<Token>, registry: Registry, i: nat, st1: HeadState, st2: HeadState)
    requires Fields(st1) == Fields(st2)
    ensures var s1, s2 := HeadStep(toks, registry, i, st1), HeadStep(toks, registry, i, st2);
      && (s1.Diverge? <==> s2.Diverge?)
      && (s1.Return? <==> s2.Return?) && (s1.Return? ==> s1.fields == s2.fields)
      && (s1.Continue? <==> s2.Continue?) && (s1.Continue? ==> s1.next == s2.next && Fields(s1.st) == Fields(s2.st))
  {
  }

  /** The inner loop's outcome depends on its state only through the four fields. */
  lemma {:induction false} ScanHeadDependsOnFields(toks: seq<Token>, registry: Registry, i: nat, st1: HeadState, st2: HeadState)
    requires Fields(st1) == Fields(st2)
    ensures ScanHead(toks, registry, i, st1) == ScanHead(toks, registry, i, st2)
    decreases |toks| - i
  {
    HeadStepDependsOnFields(toks, registry, i, st1, st2);
    var s1, s2 := HeadStep(toks, registry, i, st1), HeadStep(toks, registry, i, st2);
    if s1.Continue? {
      ScanHeadDependsOnFields(toks, registry, s1.next, s1.st, s2.st);
    }
  }

  /**
   * A meta tag that matches nothing in the task's registry only writes the
   * unused key "", so the result is as if the tag were not there.
   */
  lemma UnmatchedMetaIgnored(toks: seq<Token>, i: nat, st: HeadState)
    requires i < |toks| && IsStartLike(toks[i]) && toks[i].data == "meta"
    requires forall k :: 0 <= k < |toks[i].attr| ==> !Registered(toks[i].attr[k], MetaAttrRegistry())
    ensures ScanHead(toks, MetaAttrRegistry(), i, st) == ScanHead(toks, MetaAttrRegistry(), i + 1, st)
  {
    var st' := st.(metaResult := st.metaResult["" := ""]);
    assert Fields(st') == Fields(st);
    ScanHeadDependsOnFields(toks, MetaAttrRegistry(), i + 1, st', st);
  }

  /**
   * A token the inner loop moves past one step at a time without touching the
   * title: not an error, not a `title` tag, not the `head` end tag. Text,
   * comments, `meta` tags and other tags are such tokens.
   */
  predicate PassThrough(t: Token) {
    t.kind != ErrorToken && !IsTitleTag(t) && !(t.kind == EndTagToken && t.data == "head")
  }

  /** The state after a pass-through token: a `meta` tag stores what it gives, any other token changes nothing. */
  function PassThroughState(t: Token, registry: Registry, st: HeadState): HeadState {
    if IsStartLike(t) && t.data == "meta" then
      var (key, value) := ParseMetaAttributes(t.attr, registry);
      st.(metaResult := st.metaResult[key := value])
    else st
  }

  /** A pass-through token moves the inner loop one token forward. */
  lemma PassThroughStep(toks: seq<Token>, registry: Registry, a: nat, st: HeadState)
    requires a < |toks| && PassThrough(toks[a])
    ensures ScanHead(toks, registry, a, st) == ScanHead(toks, registry, a + 1, PassThroughState(toks[a], registry, st))
  {
    if IsStartLike(toks[a]) && toks[a].data == "meta" {
      MetaStep(toks, registry, a, st);
    } else if IsStartLike(toks[a]) {
      OtherStartStep(toks, registry, a, st);
    } else {
      SkipStep(toks, registry, a, st);
    }
  }

  /** Two states with the same title whose maps agree everywhere except perhaps at `key`. */
  predicate SameExceptAt(st1: HeadState, st2: HeadState, key: string) {
    st1.title == st2.title && st1.metaResult - {key} == st2.metaResult - {key}
  }

  lemma UpdateAtKey(m1: map<string, string>, m2: map<string, string>, key: string, v: string)
    requires m1 - {key} == m2 - {key}
    ensures m1[key := v] == m2[key := v]
  {
    forall k | k != key
      ensures (k in m1 <==> k in m2) && (k in m1 ==> m1[k] == m2[k])
    {
      assert (k in m1 <==> k in m1 - {key}) && (k in m2 <==> k in m2 - {key});
      if k in m1 {
        assert (m1 - {key})[k] == m1[k];
        assert (m2 - {key})[k] == m2[k];
      }
    }
  }

  lemma UpdateElsewhere(m1: map<string, string>, m2: map<string, string>, key: string, k: string, v: string)
    requires m1 - {key} == m2 - {key}
    ensures m1[k := v] - {key} == m2[k := v] - {key}
  {
    if k == key {
      assert m1[k := v] - {key} == m1 - {key};
      assert m2[k := v] - {key} == m2 - {key};
    } else {
      assert m1[k := v] - {key} == (m1 - {key})[k := v];
      assert m2[k := v] - {key} == (m2 - {key})[k := v];
    }
  }

  /**
   * From `a` up to a `meta` tag at `j` that writes `key`, with only
   * pass-through tokens before it, what is stored under `key` makes no
   * difference: that tag overwrites it.
   */
  lemma {:induction false} MetaOverwrittenLater(toks: seq<Token>, registry: Registry, a: nat, j: nat, key: string, st1: HeadState, st2: HeadState)
    requires a <= j < |toks| && IsStartLike(toks[j]) && toks[j].data == "meta"
    requires ParseMetaAttributes(toks[j].attr, registry).0 == key
    requires forall k :: a <= k < j ==> PassThrough(toks[k])
    requires SameExceptAt(st1, st2, key)
    ensures ScanHead(toks, registry, a, st1) == ScanHead(toks, registry, a, st2)
    decreases j - a
  {
    if a == j {
      var v := ParseMetaAttributes(toks[a].attr, registry).1;
      MetaStep(toks, registry, a, st1);
      MetaStep(toks, registry, a, st2);
      UpdateAtKey(st1.metaResult, st2.metaResult, key, v);
    } else {
      PassThroughStep(toks, registry, a, st1);
      PassThroughStep(toks, registry, a, st2);
      if IsStartLike(toks[a]) && toks[a].data == "meta" {
        var (k, v) := ParseMetaAttributes(toks[a].attr, registry);
        UpdateElsewhere(st1.metaResult, st2.metaResult, key, k, v);
      }
      MetaOverwrittenLater(toks, registry, a + 1, j, key,
        PassThroughState(toks[a], registry, st1), PassThroughState(toks[a], registry, st2));
    }
  }

  /**
   * Of two meta tags that select the same field, with only pass-through
   * tokens (such as the white space between tags) between them, the later
   * one wins: the earlier one makes no difference. A matching tag without
   * `content` writes "", so it clears the field.
   */
  lemma LaterMetaOverwrites(toks: seq<Token>, registry: Registry, i: nat, j: nat, st: HeadState)
    requires i < j < |toks|
    requires IsStartLike(toks[i]) && toks[i].data == "meta"
    requires IsStartLike(toks[j]) && toks[j].data == "meta"
    requires ParseMetaAttributes(toks[i].attr, registry).0 == ParseMetaAttributes(toks[j].attr, registry).0
    requires forall k :: i < k < j ==> PassThrough(toks[k])
    ensures ScanHead(toks, registry, i, st) == ScanHead(toks, registry, i + 1, st)
  {
    var (key, value) := ParseMetaAttributes(toks[i].attr, registry);
    var st1 := st.(metaResult := st.metaResult[key := value]);
    MetaStep(toks, registry, i, st);
    assert st1.metaResult - {key} == st.metaResult - {key};
    MetaOverwrittenLater(toks, registry, i + 1, j, key, st1, st);
  }

  /** A token inside the head section: neither an error nor the `head` end tag. */
  predicate BeforeHeadEnd(t: Token) {
    t.kind != ErrorToken && !(t.kind == EndTagToken && t.data == "head")
  }

  /**
   * On the tokenizer's output (see `RawTitleText`), from `a` up to a `meta`
   * tag at `j` that writes `key`, with any tokens of the head section before
   * it, titles included, what is stored under `key` makes no difference.
   */
  lemma {:induction false} MetaOverwrittenLaterRaw(toks: seq<Token>, registry: Registry, a: nat, j: nat, key: string, st1: HeadState, st2: HeadState)
    requires RawTitleText(toks)
    requires a <= j < |toks| && IsStartLike(toks[j]) && toks[j].data == "meta"
    requires ParseMetaAttributes(toks[j].attr, registry).0 == key
    requires forall k :: a <= k < j ==> BeforeHeadEnd(toks[k])
    requires SameExceptAt(st1, st2, key)
    ensures ScanHead(toks, registry, a, st1) == ScanHead(toks, registry, a, st2)
    decreases j - a
  {
    if a == j {
      MetaOverwrittenLater(toks, registry, a, j, key, st1, st2);
    } else if IsTitleTag(toks[a]) {
      assert toks[a + 1].kind == TextToken || (toks[a + 1].kind == EndTagToken && toks[a + 1].data == "title");
      assert a + 1 < j;
      if toks[a + 1].kind == TextToken {
        var title := TrimSpace(toks[a + 1].data);
        TitleStep(toks, registry, a, st1);
        TitleStep(toks, registry, a, st2);
        MetaOverwrittenLaterRaw(toks, registry, a + 2, j, key, st1.(title := title), st2.(title := title));
      } else {
        TitleNonTextStep(toks, registry, a, st1);
        TitleNonTextStep(toks, registry, a, st2);
        MetaOverwrittenLaterRaw(toks, registry, a + 2, j, key, st1, st2);
      }
    } else {
      PassThroughStep(toks, registry, a, st1);
      PassThroughStep(toks, registry, a, st2);
      if IsStartLike(toks[a]) && toks[a].data == "meta" {
        var (k, v) := ParseMetaAttributes(toks[a].attr, registry);
        UpdateElsewhere(st1.metaResult, st2.metaResult, key, k, v);
      }
      MetaOverwrittenLaterRaw(toks, registry, a + 1, j, key,
        PassThroughState(toks[a], registry, st1), PassThroughState(toks[a], registry, st2));
    }
  }

  /**
   * On the tokenizer's output, of two meta tags that select the same field
   * anywhere in one head section, titles between them included, the later
   * one wins: the earlier one makes no difference.
   */
  lemma LaterMetaOverwritesRaw(toks: seq<Token>, registry: Registry, i: nat, j: nat, st: HeadState)
    requires RawTitleText(toks)
    requires i < j < |toks|
    requires IsStartLike(toks[i]) && toks[i].data == "meta"
    requires IsStartLike(toks[j]) && toks[j].data == "meta"
    requires ParseMetaAttributes(toks[i].attr, registry).0 == ParseMetaAttributes(toks[j].attr, registry).0
    requires forall k :: i < k < j ==> BeforeHeadEnd(toks[k])
    ensures ScanHead(toks, registry, i, st) == ScanHead(toks, registry, i + 1, st)
  {
    var (key, value) := ParseMetaAttributes(toks[i].attr, registry);
    var st1 := st.(metaResult := st.metaResult[key := value]);
    MetaStep(toks, registry, i, st);
    assert st1.metaResult - {key} == st.metaResult - {key};
    MetaOverwrittenLaterRaw(toks, registry, i + 1, j, key, st1, st);
  }

  /**
   * `<meta name="description" content="a"><title>T</title><meta name="description" content="b"></head>`:
   * the title between them does not stop the second description from replacing the first.
   */
  lemma MetaAcrossTitle(st: HeadState)
    ensures var toks := [Token(StartTagToken, "meta", [Attribute("name", "description"), Attribute("content", "a")]),
                         Token(StartTagToken, "title", []), Token(TextToken, "T", []), Token(EndTagToken, "title", []),
                         Token(StartTagToken, "meta", [Attribute("name", "description"), Attribute("content", "b")]),
                         Token(EndTagToken, "head", [])];
      ScanHead(toks, MetaAttrRegistry(), 0, st) == ScanHead(toks, MetaAttrRegistry(), 1, st)
  {
    var first := [Attribute("name", "description"), Attribute("content", "a")];
    var second := [Attribute("name", "description"), Attribute("content", "b")];
    var toks := [Token(StartTagToken, "meta", first),
                 Token(StartTagToken, "title", []), Token(TextToken, "T", []), Token(EndTagToken, "title", []),
                 Token(StartTagToken, "meta", second), Token(EndTagToken, "head", [])];
    forall k | 0 <= k < |toks| - 1 && IsTitleTag(toks[k])
      ensures toks[k + 1].kind == TextToken
    {
      assert k == 1;
    }
    RegisteredInTaskRegistry(first[0]);
    RegisteredInTaskRegistry(second[0]);
    RegisteredThenContent(first, MetaAttrRegistry());
    RegisteredThenContent(second, MetaAttrRegistry());
    LaterMetaOverwritesRaw(toks, MetaAttrRegistry(), 0, 4, st);
  }

  // ---------------------------------------------------------------------------
  // parseMetaTags: one token at a time
  // ---------------------------------------------------------------------------

  /** A `meta` tag in the head section stores what `parseMetaAttributes` gives for it. */
  lemma MetaStep(toks: seq<Token>, registry: Registry, i: nat, st: HeadState)
    requires i < |toks| && IsStartLike(toks[i]) && toks[i].data == "meta"
    ensures var (key, value) := ParseMetaAttributes(toks[i].attr, registry);
      ScanHead(toks, registry, i, st) == ScanHead(toks, registry, i + 1, st.(metaResult := st.metaResult[key := value]))
  {
  }

  /** Any token but an error, a start tag, a self-closing tag or the `head` end tag is skipped. */
  lemma SkipStep(toks: seq<Token>, registry: Registry, i: nat, st: HeadState)
    requires i < |toks| && toks[i].kind != ErrorToken && !IsStartLike(toks[i])
    requires !(toks[i].kind == EndTagToken && toks[i].data == "head")
    ensures ScanHead(toks, registry, i, st) == ScanHead(toks, registry, i + 1, st)
  {
  }

  /** The `head` end tag returns the fields stored so far. */
  lemma HeadEndStep(toks: seq<Token>, registry: Registry, i: nat, st: HeadState)
    requires i < |toks| && toks[i].kind == EndTagToken && toks[i].data == "head"
    ensures ScanHead(toks, registry, i, st) == Some(Fields(st))
  {
  }

  /** An error from the tokenizer in the head section: the inner loop never ends. */
  lemma ErrorStep(toks: seq<Token>, registry: Registry, i: nat, st: HeadState)
    requires NextToken(toks, i).kind == ErrorToken
    ensures ScanHead(toks, registry, i, st) == None
  {
  }

  /** A `title` tag as the last token: reading the title text fails and the inner loop never ends. */
  lemma TitleErrorStep(toks: seq<Token>, registry: Registry, i: nat, st: HeadState)
    requires i < |toks| && IsStartLike(toks[i]) && toks[i].data == "title"
    requires NextToken(toks, i + 1).kind == ErrorToken
    ensures ScanHead(toks, registry, i, st) == None
  {
  }

  /** A `title` tag followed by a token that is not text: both are consumed and nothing is stored. */
  lemma TitleNonTextStep(toks: seq<Token>, registry: Registry, i: nat, st: HeadState)
    requires i + 1 < |toks| && IsStartLike(toks[i]) && toks[i].data == "title"
    requires toks[i + 1].kind != TextToken && toks[i + 1].kind != ErrorToken
    ensures ScanHead(toks, registry, i, st) == ScanHead(toks, registry, i + 2, st)
  {
  }

  /** A start or self-closing tag other than `title` and `meta` is skipped. */
  lemma OtherStartStep(toks: seq<Token>, registry: Registry, i: nat, st: HeadState)
    requires i < |toks| && IsStartLike(toks[i]) && toks[i].data != "title" && toks[i].data != "meta"
    ensures ScanHead(toks, registry, i, st) == ScanHead(toks, registry, i + 1, st)
  {
  }

  /** A `title` tag followed by text stores the trimmed text as the title; both tokens are consumed. */
  lemma TitleStep(toks: seq<Token>, registry: Registry, i: nat, st: HeadState)
    requires i + 1 < |toks| && IsStartLike(toks[i]) && toks[i].data == "title" && toks[i + 1].kind == TextToken
    ensures ScanHead(toks, registry, i, st) == ScanHead(toks, registry, i + 2, st.(title := TrimSpace(toks[i + 1].data)))
  {
  }

  /**
   * The inner loop consumes the token after a `title` tag whatever it is, so
   * on a token stream with a `head` end tag right after a `title` tag that end
   * tag would not end the head section. The tokenizer never yields such a
   * stream (see `RawTitleText`): it reads `<title></head>` as a `title` tag
   * followed by the text `</head>`.
   */
  lemma TitleSwallowsHeadEnd(toks: seq<Token>, registry: Registry, i: nat, st: HeadState)
    requires i + 1 < |toks| && IsStartLike(toks[i]) && toks[i].data == "title"
    requires toks[i + 1].kind == EndTagToken && toks[i + 1].data == "head"
    ensures ScanHead(toks, registry, i, st) == ScanHead(toks, registry, i + 2, st)
  {
  }

  // ---------------------------------------------------------------------------
  // parseMetaTags: the last title wins
  // ---------------------------------------------------------------------------

  /**
   * From `a` up to a `title` tag at `j` followed by text, with only
   * pass-through tokens before it, the stored title makes no difference:
   * that tag overwrites it.
   */
  lemma {:induction false} TitleOverwrittenLater(toks: seq<Token>, registry: Registry, a: nat, j: nat, st1: HeadState, st2: HeadState)
    requires a <= j && j + 1 < |toks| && IsTitleTag(toks[j]) && toks[j + 1].kind == TextToken
    requires forall k :: a <= k < j ==> PassThrough(toks[k])
    requires st1.metaResult == st2.metaResult
    ensures ScanHead(toks, registry, a, st1) == ScanHead(toks, registry, a, st2)
    decreases j - a
  {
    if a == j {
      TitleStep(toks, registry, j, st1);
      TitleStep(toks, registry, j, st2);
      assert st1.(title := TrimSpace(toks[j + 1].data)) == st2.(title := TrimSpace(toks[j + 1].data));
    } else {
      PassThroughStep(toks, registry, a, st1);
      PassThroughStep(toks, registry, a, st2);
      TitleOverwrittenLater(toks, registry, a + 1, j,
        PassThroughState(toks[a], registry, st1), PassThroughState(toks[a], registry, st2));
    }
  }

  /**
   * Of two titles, with only pass-through tokens (such as the `title` end tag
   * and white space) between the first title's text and the second `title`
   * tag, the later one wins: the earlier one makes no difference.
   */
  lemma LaterTitleOverwrites(toks: seq<Token>, registry: Registry, i: nat, j: nat, st: HeadState)
    requires i + 2 <= j && j + 1 < |toks|
    requires IsTitleTag(toks[i]) && toks[i + 1].kind == TextToken
    requires IsTitleTag(toks[j]) && toks[j + 1].kind == TextToken
    requires forall k :: i + 2 <= k < j ==> PassThrough(toks[k])
    ensures ScanHead(toks, registry, i, st) == ScanHead(toks, registry, i + 2, st)
  {
    TitleStep(toks, registry, i, st);
    TitleOverwrittenLater(toks, registry, i + 2, j, st.(title := TrimSpace(toks[i + 1].data)), st);
  }

  /** `<title>a</title><title>b</title>`: the second title replaces the first. */
  lemma SecondTitleAfterTitleEnd(a: string, b: string, rest: seq<Token>, registry: Registry, st: HeadState)
    ensures var toks := [Token(StartTagToken, "title", []), Token(TextToken, a, []), Token(EndTagToken, "title", []),
                         Token(StartTagToken, "title", []), Token(TextToken, b, [])] + rest;
      ScanHead(toks, registry, 0, st) == ScanHead(toks, registry, 2, st)
  {
    var toks := [Token(StartTagToken, "title", []), Token(TextToken, a, []), Token(EndTagToken, "title", []),
                 Token(StartTagToken, "title", []), Token(TextToken, b, [])] + rest;
    assert PassThrough(toks[2]);
    LaterTitleOverwrites(toks, registry, 0, 3, st);
  }

  // ---------------------------------------------------------------------------
  // Two documents
  // ---------------------------------------------------------------------------

  /** The tokens of `<html><head><title>T</title><meta name="description" content="D"><meta property="og:image" content="I"></head></html>`. */
  const MinimalDocument: seq<Token> := [
    Token(StartTagToken, "html", []),
    Token(StartTagToken, "head", []),
    Token(StartTagToken, "title", []),
    Token(TextToken, "T", []),
    Token(EndTagToken, "title", []),
    Token(StartTagToken, "meta", [Attribute("name", "description"), Attribute("content", "D")]),
    Token(StartTagToken, "meta", [Attribute("property", "og:image"), Attribute("content", "I")]),
    Token(EndTagToken, "head", []),
    Token(EndTagToken, "html", [])
  ]

  /** The first meta tag of the minimal document selects description D. */
  lemma MinimalDocumentDescription()
    ensures ParseMetaAttributes(MinimalDocument[5].attr, MetaAttrRegistry()) == ("description", "D")
  {
    var a5 := [Attribute("name", "description"), Attribute("content", "D")];
    assert MinimalDocument[5].attr == a5;
    RegisteredInTaskRegistry(a5[0]);
    RegisteredThenContent(a5, MetaAttrRegistry());
    TrimSpaceOfTrimmed("D");
  }

  /** The second meta tag of the minimal document selects og:image I. */
  lemma MinimalDocumentImage()
    ensures ParseMetaAttributes(MinimalDocument[6].attr, MetaAttrRegistry()) == ("og:image", "I")
  {
    var a6 := [Attribute("property", "og:image"), Attribute("content", "I")];
    assert MinimalDocument[6].attr == a6;
    RegisteredInTaskRegistry(a6[0]);
    RegisteredThenContent(a6, MetaAttrRegistry());
    TrimSpaceOfTrimmed("I");
  }

  /** The minimal document from its second meta tag on. */
  lemma MinimalDocumentOgImage()
    ensures ScanHead(MinimalDocument, MetaAttrRegistry(), 6, HeadState("T", map["description" := "D"])) == Some(["T", "D", "", "I"])
  {
    var m := map["description" := "D", "og:image" := "I"];
    assert Fields(HeadState("T", m)) == ["T", "D", "", "I"];
    MinimalDocumentImage();
    MetaStep(MinimalDocument, MetaAttrRegistry(), 6, HeadState("T", map["description" := "D"]));
    HeadEndStep(MinimalDocument, MetaAttrRegistry(), 7, HeadState("T", m));
    assert map["description" := "D"]["og:image" := "I"] == m;
  }

  /** The minimal document from its first meta tag on. */
  lemma MinimalDocumentMetaSection()
    ensures ScanHead(MinimalDocument, MetaAttrRegistry(), 5, HeadState("T", map[])) == Some(["T", "D", "", "I"])
  {
    MinimalDocumentDescription();
    MinimalDocumentOgImage();
    MetaStep(MinimalDocument, MetaAttrRegistry(), 5, HeadState("T", map[]));
    assert map[]["description" := "D"] == map["description" := "D"];
  }

  /** The `title` tag of the minimal document is followed by the text T. */
  lemma MinimalDocumentTitle()
    ensures ScanHead(MinimalDocument, MetaAttrRegistry(), 2, HeadState("", map[]))
         == ScanHead(MinimalDocument, MetaAttrRegistry(), 4, HeadState("T", map[]))
  {
    TrimSpaceOfTrimmed("T");
  }

  /** The head section of the minimal document, from the token after `<head>`. */
  lemma MinimalDocumentHead()
    ensures ScanHead(MinimalDocument, MetaAttrRegistry(), 2, HeadState("", map[])) == Some(["T", "D", "", "I"])
  {
    MinimalDocumentTitle();
    MinimalDocumentMetaSection();
    SkipStep(MinimalDocument, MetaAttrRegistry(), 4, HeadState("T", map[]));
  }

  /** The minimal document yields title T, description D, no keywords and og:image I. */
  lemma MinimalDocumentFields()
    ensures MetaTagsOf(MinimalDocument, MetaAttrRegistry()) == Some(["T", "D", "", "I"])
  {
    MinimalDocumentHead();
    assert ScanForHead(MinimalDocument, MetaAttrRegistry(), 1) == ScanHead(MinimalDocument, MetaAttrRegistry(), 2, HeadState("", map[]));
  }

  /** The tokens of `<html><body><p>x</p></body></html>`: no head section. */
  const HeadlessDocument: seq<Token> := [
    Token(StartTagToken, "html", []),
    Token(StartTagToken, "body", []),
    Token(StartTagToken, "p", []),
    Token(TextToken, "x", []),
    Token(EndTagToken, "p", []),
    Token(EndTagToken, "body", []),
    Token(EndTagToken, "html", [])
  ]

  /** On a document without a head section `parseMetaTags` never returns. */
  lemma HeadlessDocumentNeverReturns()
    ensures MetaTagsOf(HeadlessDocument, MetaAttrRegistry()) == None
  {
    NoHeadNeverReturns(HeadlessDocument, MetaAttrRegistry());
  }
}
