/** Rewriting OAuth placeholders and start links in an adaptive card, and detecting start links. */
module Cards {
  import opened Sequences
  import opened Text

  datatype Json =
    | Null
    | Bool(b: bool)
    | Number(literal: string)
    | Str(text: string)
    | Arr(items: seq<Json>)
    | Obj(fields: seq<Member>)

  datatype Member = Member(key: string, value: Json)

  const START_MARKER := "oauth://start"
  const START_PLACEHOLDER := "{{oauth.start_url}}"
  const TEAMS_PLACEHOLDER := "{{oauth.teams.connectionName}}"

  function Size(v: Json): (n: nat)
    ensures n > 0
    decreases v, 0
  {
    match v
    case Arr(items) => 1 + ItemsSize(items)
    case Obj(fields) => 1 + FieldsSize(fields)
    case _ => 1
  }

  function ItemsSize(items: seq<Json>): nat {
    if items == [] then 0 else Size(items[0]) + ItemsSize(items[1..])
  }

  function FieldsSize(fields: seq<Member>): nat {
    if fields == [] then 0 else Size(fields[0].value) + FieldsSize(fields[1..])
  }

  // ----- objects as key-value lists

  function Get(fields: seq<Member>, key: string): Option<Json> {
    if fields == [] then None else if fields[0].key == key then Some(fields[0].value) else Get(fields[1..], key)
  }

  /** Replace the value of a key that is present. */
  function Put(fields: seq<Member>, key: string, text: string): (r: seq<Member>)
    ensures FieldsSize(r) <= FieldsSize(fields)
  {
    if fields == [] then []
    else if fields[0].key == key then [Member(key, Str(text))] + fields[1..]
    else [fields[0]] + Put(fields[1..], key, text)
  }

  function Delete(fields: seq<Member>, key: string): (r: seq<Member>)
    ensures FieldsSize(r) <= FieldsSize(fields)
  {
    if fields == [] then []
    else if fields[0].key == key then fields[1..]
    else [fields[0]] + Delete(fields[1..], key)
  }

  // ----- detection

  predicate HasText(value: Option<Json>, text: string) { value == Some(Str(text)) }

  predicate IsOpenUrl(fields: seq<Member>) {
    var kind := Get(fields, "type");
    kind.Some? && kind.value.Str? && EqualIgnoringCase(kind.value.text, "Action.OpenUrl")
  }

  /** An open-url action whose url is the start marker. */
  predicate IsMarked(fields: seq<Member>) { IsOpenUrl(fields) && HasText(Get(fields, "url"), START_MARKER) }

  predicate ContainsStartMarker(v: Json)
    decreases Size(v), 0
  {
    match v
    case Arr(items) => AnyItem(items)
    case Obj(fields) => IsMarked(fields) || AnyField(fields)
    case _ => false
  }

  predicate AnyItem(items: seq<Json>)
    decreases ItemsSize(items), 1
  {
    items != [] && (ContainsStartMarker(items[0]) || AnyItem(items[1..]))
  }

  predicate AnyField(fields: seq<Member>)
    decreases FieldsSize(fields), 1
  {
    fields != [] && (ContainsStartMarker(fields[0].value) || AnyField(fields[1..]))
  }

  // ----- rewriting

  /** What the card is rewritten with. */
  datatype Resolution = Resolution(startUrl: string, connectionName: Option<string>, teamsNative: bool)

  function Replace(s: string, from: string, to: string): string
    requires from != ""
    decreases |s|
  {
    if s == "" then ""
    else if from <= s then to + Replace(s[|from|..], from, to)
    else [s[0]] + Replace(s[1..], from, to)
  }

  function RewriteText(text: string, r: Resolution): string {
    Replace(
      Replace(text, START_PLACEHOLDER, r.startUrl), TEAMS_PLACEHOLDER,
      if r.teamsNative && r.connectionName.Some? then r.connectionName.value else "")
  }

  /** The edits of one object before its values are rewritten. */
  function Patch(fields: seq<Member>, r: Resolution): (p: seq<Member>)
    ensures FieldsSize(p) <= FieldsSize(fields)
  {
    var linked := if IsMarked(fields) then Put(fields, "url", r.startUrl) else fields;
    if !HasText(Get(linked, "connectionName"), TEAMS_PLACEHOLDER) then linked
    else if r.teamsNative && r.connectionName.Some? then Put(linked, "connectionName", r.connectionName.value)
    else Delete(linked, "connectionName")
  }

  function Rewrite(v: Json, r: Resolution): Json
    decreases Size(v), 0
  {
    match v
    case Obj(fields) => Obj(RewriteFields(Patch(fields, r), r))
    case Arr(items) => Arr(RewriteItems(items, r))
    case Str(text) => Str(RewriteText(text, r))
    case _ => v
  }

  function RewriteItems(items: seq<Json>, r: Resolution): seq<Json>
    decreases ItemsSize(items), 1
  {
    if items == [] then [] else [Rewrite(items[0], r)] + RewriteItems(items[1..], r)
  }

  function RewriteFields(fields: seq<Member>, r: Resolution): seq<Member>
    decreases FieldsSize(fields), 1
  {
    if fields == [] then []
    else [Member(fields[0].key, Rewrite(fields[0].value, r))] + RewriteFields(fields[1..], r)
  }

  // ----- cards without placeholder text

  predicate CleanText(text: string) {
    !ContainsText(text, START_PLACEHOLDER) && !ContainsText(text, TEAMS_PLACEHOLDER)
  }

  predicate Clean(v: Json)
    decreases Size(v), 0
  {
    match v
    case Str(text) => CleanText(text)
    case Arr(items) => CleanItems(items)
    case Obj(fields) => CleanFields(fields)
    case _ => true
  }

  predicate CleanItems(items: seq<Json>)
    decreases ItemsSize(items), 1
  {
    items == [] || (Clean(items[0]) && CleanItems(items[1..]))
  }

  predicate CleanFields(fields: seq<Member>)
    decreases FieldsSize(fields), 1
  {
    fields == [] || (Clean(fields[0].value) && CleanFields(fields[1..]))
  }

  lemma {:induction false} ReplaceNothing(s: string, from: string, to: string)
    requires from != "" && !ContainsText(s, from)
    ensures Replace(s, from, to) == s
    decreases |s|
  {
    if s != "" {
      ReplaceNothing(s[1..], from, to);
    }
  }

  lemma CleanTextStays(text: string, r: Resolution)
    requires CleanText(text)
    ensures RewriteText(text, r) == text
  {
    ReplaceNothing(text, START_PLACEHOLDER, r.startUrl);
    ReplaceNothing(text, TEAMS_PLACEHOLDER,
                   if r.teamsNative && r.connectionName.Some? then r.connectionName.value else "");
  }

  /** The reference: in every marked object the url becomes the start url, and nothing else changes. */
  function Redirect(v: Json, startUrl: string): Json
    decreases Size(v), 0
  {
    match v
    case Obj(fields) => Obj(RedirectFields(fields, startUrl, IsMarked(fields)))
    case Arr(items) => Arr(RedirectItems(items, startUrl))
    case _ => v
  }

  function RedirectItems(items: seq<Json>, startUrl: string): seq<Json>
    decreases ItemsSize(items), 1
  {
    if items == [] then [] else [Redirect(items[0], startUrl)] + RedirectItems(items[1..], startUrl)
  }

  /** `here` says that the first url among these fields belongs to a marked object. */
  function RedirectFields(fields: seq<Member>, startUrl: string, here: bool): seq<Member>
    decreases FieldsSize(fields), 1
  {
    if fields == [] then []
    else if here && fields[0].key == "url" then
      [Member("url", Str(startUrl))] + RedirectFields(fields[1..], startUrl, false)
    else
      [Member(fields[0].key, Redirect(fields[0].value, startUrl))] + RedirectFields(fields[1..], startUrl, here)
  }

  lemma {:induction false} CleanGet(fields: seq<Member>, key: string, text: string)
    requires CleanFields(fields) && HasText(Get(fields, key), text)
    ensures CleanText(text)
  {
    if fields[0].key != key {
      CleanGet(fields[1..], key, text);
    }
  }

  lemma {:induction false} CleanPut(fields: seq<Member>, key: string, text: string)
    requires CleanFields(fields) && CleanText(text)
    ensures CleanFields(Put(fields, key, text))
  {
    if fields != [] && fields[0].key != key {
      CleanPut(fields[1..], key, text);
    }
  }

  /** On a clean object the patch can only change the url. */
  lemma CleanPatch(fields: seq<Member>, r: Resolution)
    requires CleanFields(fields) && CleanText(r.startUrl)
    ensures Patch(fields, r) == if IsMarked(fields) then Put(fields, "url", r.startUrl) else fields
    ensures CleanFields(Patch(fields, r))
  {
    var linked := if IsMarked(fields) then Put(fields, "url", r.startUrl) else fields;
    CleanPut(fields, "url", r.startUrl);
    ContainsAt(TEAMS_PLACEHOLDER, 0, TEAMS_PLACEHOLDER);
    if HasText(Get(linked, "connectionName"), TEAMS_PLACEHOLDER) {
      CleanGet(linked, "connectionName", TEAMS_PLACEHOLDER);
      assert false;
    }
  }

  /** On a clean card the rewriter is the reference. */
  lemma {:induction false} RewriteIsRedirect(v: Json, r: Resolution)
    requires Clean(v) && CleanText(r.startUrl)
    ensures Rewrite(v, r) == Redirect(v, r.startUrl)
    decreases Size(v), 0
  {
    match v
    case Obj(fields) =>
      CleanPatch(fields, r);
      RewriteFieldsIsRedirect(fields, r, IsMarked(fields));
    case Arr(items) => RewriteItemsIsRedirect(items, r);
    case Str(text) => CleanTextStays(text, r);
    case _ =>
  }

  lemma {:induction false} RewriteItemsIsRedirect(items: seq<Json>, r: Resolution)
    requires CleanItems(items) && CleanText(r.startUrl)
    ensures RewriteItems(items, r) == RedirectItems(items, r.startUrl)
    decreases ItemsSize(items), 1
  {
    if items != [] {
      RewriteIsRedirect(items[0], r);
      RewriteItemsIsRedirect(items[1..], r);
    }
  }

  lemma {:induction false} RewriteFieldsIsRedirect(fields: seq<Member>, r: Resolution, here: bool)
    requires CleanFields(fields) && CleanText(r.startUrl)
    ensures RewriteFields(if here then Put(fields, "url", r.startUrl) else fields, r)
         == RedirectFields(fields, r.startUrl, here)
    decreases FieldsSize(fields), 1
  {
    if fields != [] {
      if here && fields[0].key == "url" {
        var put := Put(fields, "url", r.startUrl);
        assert put[0] == Member("url", Str(r.startUrl)) && put[1..] == fields[1..];
        CleanTextStays(r.startUrl, r);
        RewriteFieldsIsRedirect(fields[1..], r, false);
      } else {
        RewriteIsRedirect(fields[0].value, r);
        RewriteFieldsIsRedirect(fields[1..], r, here);
        if here {
          var put := Put(fields, "url", r.startUrl);
          assert put[0] == fields[0] && put[1..] == Put(fields[1..], "url", r.startUrl);
        }
      }
    }
  }

  // ----- what redirecting does to the marker

  lemma {:induction false} RedirectGet(fields: seq<Member>, startUrl: string, here: bool, key: string)
    ensures Get(RedirectFields(fields, startUrl, here), key)
         == if Get(fields, key).None? then None
            else if here && key == "url" then Some(Str(startUrl))
            else Some(Redirect(Get(fields, key).value, startUrl))
    decreases |fields|
  {
    if fields != [] && fields[0].key != key {
      RedirectGet(fields[1..], startUrl, here && fields[0].key != "url", key);
    }
  }

  /** An object is marked after redirecting exactly when it was and the start url is the marker. */
  lemma RedirectMarked(fields: seq<Member>, startUrl: string)
    ensures IsMarked(RedirectFields(fields, startUrl, IsMarked(fields)))
       <==> IsMarked(fields) && startUrl == START_MARKER
  {
    var here := IsMarked(fields);
    RedirectGet(fields, startUrl, here, "type");
    RedirectGet(fields, startUrl, here, "url");
  }

  lemma {:induction false} RedirectContains(v: Json, startUrl: string)
    ensures ContainsStartMarker(Redirect(v, startUrl)) <==> ContainsStartMarker(v) && startUrl == START_MARKER
    decreases Size(v), 0
  {
    match v
    case Obj(fields) =>
      RedirectMarked(fields, startUrl);
      RedirectAnyField(fields, startUrl, IsMarked(fields));
    case Arr(items) => RedirectAnyItem(items, startUrl);
    case _ =>
  }

  lemma {:induction false} RedirectAnyItem(items: seq<Json>, startUrl: string)
    ensures AnyItem(RedirectItems(items, startUrl)) <==> AnyItem(items) && startUrl == START_MARKER
    decreases ItemsSize(items), 1
  {
    if items != [] {
      RedirectContains(items[0], startUrl);
      RedirectAnyItem(items[1..], startUrl);
    }
  }

  lemma {:induction false} RedirectAnyField(fields: seq<Member>, startUrl: string, here: bool)
    requires here ==> HasText(Get(fields, "url"), START_MARKER)
    ensures AnyField(RedirectFields(fields, startUrl, here)) <==> AnyField(fields) && startUrl == START_MARKER
    decreases FieldsSize(fields), 1
  {
    if fields != [] {
      var next := here && fields[0].key != "url";
      RedirectContains(fields[0].value, startUrl);
      RedirectAnyField(fields[1..], startUrl, next);
      assert RedirectFields(fields, startUrl, here)[1..] == RedirectFields(fields[1..], startUrl, next);
    }
  }

  lemma {:induction false} RedirectNothing(v: Json, startUrl: string)
    requires !ContainsStartMarker(v) || startUrl == START_MARKER
    ensures Redirect(v, startUrl) == v
    decreases Size(v), 0
  {
    match v
    case Obj(fields) => RedirectNoField(fields, startUrl, IsMarked(fields));
    case Arr(items) => RedirectNoItem(items, startUrl);
    case _ =>
  }

  lemma {:induction false} RedirectNoItem(items: seq<Json>, startUrl: string)
    requires !AnyItem(items) || startUrl == START_MARKER
    ensures RedirectItems(items, startUrl) == items
    decreases ItemsSize(items), 1
  {
    if items != [] {
      RedirectNothing(items[0], startUrl);
      RedirectNoItem(items[1..], startUrl);
    }
  }

  lemma {:induction false} RedirectNoField(fields: seq<Member>, startUrl: string, here: bool)
    requires !AnyField(fields) || startUrl == START_MARKER
    requires here ==> HasText(Get(fields, "url"), START_MARKER) && startUrl == START_MARKER
    ensures RedirectFields(fields, startUrl, here) == fields
    decreases FieldsSize(fields), 1
  {
    if fields != [] {
      RedirectNothing(fields[0].value, startUrl);
      RedirectNoField(fields[1..], startUrl, here && fields[0].key != "url");
      assert fields == [fields[0]] + fields[1..];
    }
  }

  lemma {:induction false} RedirectStaysClean(v: Json, startUrl: string)
    requires Clean(v) && CleanText(startUrl)
    ensures Clean(Redirect(v, startUrl))
    decreases Size(v), 0
  {
    match v
    case Obj(fields) => RedirectFieldsStayClean(fields, startUrl, IsMarked(fields));
    case Arr(items) => RedirectItemsStayClean(items, startUrl);
    case _ =>
  }

  lemma {:induction false} RedirectItemsStayClean(items: seq<Json>, startUrl: string)
    requires CleanItems(items) && CleanText(startUrl)
    ensures CleanItems(RedirectItems(items, startUrl))
    decreases ItemsSize(items), 1
  {
    if items != [] {
      RedirectStaysClean(items[0], startUrl);
      RedirectItemsStayClean(items[1..], startUrl);
    }
  }

  lemma {:induction false} RedirectFieldsStayClean(fields: seq<Member>, startUrl: string, here: bool)
    requires CleanFields(fields) && CleanText(startUrl)
    ensures CleanFields(RedirectFields(fields, startUrl, here))
    decreases FieldsSize(fields), 1
  {
    if fields != [] {
      var next := here && fields[0].key != "url";
      RedirectStaysClean(fields[0].value, startUrl);
      RedirectFieldsStayClean(fields[1..], startUrl, next);
      assert RedirectFields(fields, startUrl, here)[1..] == RedirectFields(fields[1..], startUrl, next);
    }
  }

  // ----- the main results

  /** A clean card holds a start marker after rewriting exactly when it held one before and the start
      url is the marker itself. */
  lemma RewriteRemovesMarkersIff(v: Json, r: Resolution)
    requires Clean(v) && CleanText(r.startUrl)
    ensures ContainsStartMarker(Rewrite(v, r)) <==> ContainsStartMarker(v) && r.startUrl == START_MARKER
  {
    RewriteIsRedirect(v, r);
    RedirectContains(v, r.startUrl);
  }

  /** A clean card without markers is left alone. */
  lemma RewriteKeepsUnmarked(v: Json, r: Resolution)
    requires Clean(v) && CleanText(r.startUrl) && !ContainsStartMarker(v)
    ensures Rewrite(v, r) == v
  {
    RewriteIsRedirect(v, r);
    RedirectNothing(v, r.startUrl);
  }

  /** Rewriting a clean card twice, even with another connection, is rewriting it once. */
  lemma {:induction false} RewriteIdempotent(v: Json, r: Resolution, again: Resolution)
    requires Clean(v) && CleanText(r.startUrl) && again.startUrl == r.startUrl
    ensures Rewrite(Rewrite(v, r), again) == Rewrite(v, r)
  {
    RewriteIsRedirect(v, r);
    RedirectStaysClean(v, r.startUrl);
    RewriteIsRedirect(Redirect(v, r.startUrl), again);
    RedirectContains(v, r.startUrl);
    RedirectNothing(Redirect(v, r.startUrl), r.startUrl);
  }

  // ----- cards with placeholder text

  function TextUnder(fields: seq<Member>, key: string): Option<string> {
    var v := Get(fields, key);
    if v.Some? && v.value.Str? then Some(v.value.text) else None
  }

  /** Once rewritten, the object is an open-url action whose url is the start marker. */
  predicate BecomesMarked(fields: seq<Member>, r: Resolution) {
    var kind, url := TextUnder(fields, "type"), TextUnder(fields, "url");
    && kind.Some? && url.Some?
    && EqualIgnoringCase(RewriteText(kind.value, r), "Action.OpenUrl")
    && RewriteText(if IsMarked(fields) then r.startUrl else url.value, r) == START_MARKER
  }

  /** Some object of the card becomes marked. */
  predicate SomeBecomesMarked(v: Json, r: Resolution)
    decreases Size(v), 0
  {
    match v
    case Arr(items) => ItemBecomesMarked(items, r)
    case Obj(fields) => BecomesMarked(fields, r) || FieldBecomesMarked(fields, r)
    case _ => false
  }

  predicate ItemBecomesMarked(items: seq<Json>, r: Resolution)
    decreases ItemsSize(items), 1
  {
    items != [] && (SomeBecomesMarked(items[0], r) || ItemBecomesMarked(items[1..], r))
  }

  predicate FieldBecomesMarked(fields: seq<Member>, r: Resolution)
    decreases FieldsSize(fields), 1
  {
    fields != [] && (SomeBecomesMarked(fields[0].value, r) || FieldBecomesMarked(fields[1..], r))
  }

  lemma {:induction false} GetOther(fields: seq<Member>, put: string, text: string, key: string)
    requires key != put
    ensures Get(Put(fields, put, text), key) == Get(fields, key) == Get(Delete(fields, put), key)
  {
    if fields != [] && fields[0].key != put {
      GetOther(fields[1..], put, text, key);
    }
  }

  lemma {:induction false} GetPut(fields: seq<Member>, key: string, text: string)
    ensures Get(Put(fields, key, text), key) == if Get(fields, key).Some? then Some(Str(text)) else None
  {
    if fields != [] && fields[0].key != key {
      GetPut(fields[1..], key, text);
    }
  }

  /** Replacing or removing a text leaves the objects below alone. */
  lemma {:induction false} TextFieldDoesNotMatter(fields: seq<Member>, key: string, text: string, r: Resolution)
    requires TextUnder(fields, key).Some?
    ensures FieldBecomesMarked(Put(fields, key, text), r) == FieldBecomesMarked(fields, r)
    ensures FieldBecomesMarked(Delete(fields, key), r) == FieldBecomesMarked(fields, r)
  {
    if fields[0].key == key {
      assert Put(fields, key, text)[1..] == fields[1..];
    } else {
      TextFieldDoesNotMatter(fields[1..], key, text, r);
      assert Put(fields, key, text)[1..] == Put(fields[1..], key, text);
      assert Delete(fields, key)[1..] == Delete(fields[1..], key);
    }
  }

  /** What the patch of an object does to its type, its url and the objects below. */
  lemma PatchMeaning(fields: seq<Member>, r: Resolution)
    ensures var p := Patch(fields, r);
            && Get(p, "type") == Get(fields, "type")
            && Get(p, "url") == (if IsMarked(fields) then Some(Str(r.startUrl)) else Get(fields, "url"))
            && FieldBecomesMarked(p, r) == FieldBecomesMarked(fields, r)
  {
    var linked := if IsMarked(fields) then Put(fields, "url", r.startUrl) else fields;
    var name := if r.connectionName.Some? then r.connectionName.value else "";
    GetOther(fields, "url", r.startUrl, "type");
    GetPut(fields, "url", r.startUrl);
    GetOther(linked, "connectionName", name, "type");
    GetOther(linked, "connectionName", name, "url");
    if IsMarked(fields) {
      TextFieldDoesNotMatter(fields, "url", r.startUrl, r);
    }
    if HasText(Get(linked, "connectionName"), TEAMS_PLACEHOLDER) {
      TextFieldDoesNotMatter(linked, "connectionName", name, r);
    }
  }

  lemma {:induction false} RewriteGet(fields: seq<Member>, r: Resolution, key: string)
    ensures Get(RewriteFields(fields, r), key)
         == if Get(fields, key).None? then None else Some(Rewrite(Get(fields, key).value, r))
    decreases |fields|
  {
    if fields != [] && fields[0].key != key {
      RewriteGet(fields[1..], r, key);
    }
  }

  lemma MarkedAfterRewriteIff(fields: seq<Member>, r: Resolution)
    ensures IsMarked(RewriteFields(Patch(fields, r), r)) <==> BecomesMarked(fields, r)
  {
    PatchMeaning(fields, r);
    RewriteGet(Patch(fields, r), r, "type");
    RewriteGet(Patch(fields, r), r, "url");
  }

  /** Any card, placeholder text included: rewriting leaves a start marker exactly when some object of
      the card becomes marked. */
  lemma {:induction false} RewriteLeavesMarkerIff(v: Json, r: Resolution)
    ensures ContainsStartMarker(Rewrite(v, r)) <==> SomeBecomesMarked(v, r)
    decreases Size(v), 0
  {
    match v
    case Obj(fields) =>
      MarkedAfterRewriteIff(fields, r);
      PatchMeaning(fields, r);
      RewriteLeavesMarkerInFields(Patch(fields, r), r);
    case Arr(items) => RewriteLeavesMarkerInItems(items, r);
    case _ =>
  }

  lemma {:induction false} RewriteLeavesMarkerInItems(items: seq<Json>, r: Resolution)
    ensures AnyItem(RewriteItems(items, r)) <==> ItemBecomesMarked(items, r)
    decreases ItemsSize(items), 1
  {
    if items != [] {
      RewriteLeavesMarkerIff(items[0], r);
      RewriteLeavesMarkerInItems(items[1..], r);
    }
  }

  lemma {:induction false} RewriteLeavesMarkerInFields(fields: seq<Member>, r: Resolution)
    ensures AnyField(RewriteFields(fields, r)) <==> FieldBecomesMarked(fields, r)
    decreases FieldsSize(fields), 1
  {
    if fields != [] {
      RewriteLeavesMarkerIff(fields[0].value, r);
      RewriteLeavesMarkerInFields(fields[1..], r);
    }
  }

  lemma {:induction false} ReplaceSkips(a: string, b: string, from: string, to: string)
    requires from != "" && from[0] !in a
    ensures Replace(a + b, from, to) == a + Replace(b, from, to)
  {
    if a == "" {
      assert a + b == b;
    } else {
      assert (a + b)[0] == a[0] && (a + b)[1..] == a[1..] + b;
      ReplaceSkips(a[1..], b, from, to);
    }
  }

  lemma ReplaceNowhere(s: string, from: string, to: string)
    requires from != "" && from[0] !in s
    ensures Replace(s, from, to) == s
  {
    ReplaceSkips(s, "", from, to);
    assert s + "" == s;
  }

  /** Removing a placeholder from the middle of a text. */
  lemma ReplaceMiddle(head: string, from: string, rest: string)
    requires from != "" && from[0] !in head && from[0] !in rest
    ensures Replace(head + (from + rest), from, "") == head + rest
  {
    var tail := from + rest;
    ReplaceSkips(head, tail, from, "");
    ReplaceNowhere(rest, from, "");
    assert tail[|from|..] == rest;
    assert Replace(tail, from, "") == "" + rest == rest;
  }

  /** A front that is not the start of the placeholder, and holds its first character only at its own
      first two places, is passed over. */
  lemma ReplaceAcross(front: string, rest: string, from: string, to: string)
    requires 2 <= |from| && !(from <= front + rest)
    requires |front| > 2 && front[2] != from[1] && from[0] !in front[2..]
    ensures Replace(front + rest, from, to) == front + Replace(rest, from, to)
  {
    var text := front + rest;
    var one, two := text[1..], front[2..];
    assert one[1] == front[2] && one[1..] == two + rest;
    ReplaceSkips(two, rest, from, to);
    assert Replace(one, from, to) == [one[0]] + (two + Replace(rest, from, to));
    assert front == [text[0]] + ([one[0]] + two);
  }

  lemma PlaceholderFronts()
    ensures 2 <= |START_PLACEHOLDER| <= |TEAMS_PLACEHOLDER|
    ensures TEAMS_PLACEHOLDER[..|START_PLACEHOLDER|] != START_PLACEHOLDER
  {
    var start, teams := START_PLACEHOLDER, TEAMS_PLACEHOLDER;
    assert start[8] == 's' && teams[8] == 't';
  }

  /** Two opening braces and a body without any. */
  ghost predicate Braced(place: string, body: string) {
    place == "{{" + body && body != "" && '{' !in body
  }

  lemma BracedMeaning(place: string, body: string)
    requires Braced(place, body)
    ensures 2 < |place| && place[0] == place[1] == '{' && place[2] != '{' && '{' !in place[2..]
  {
    assert place[2..] == body && body[0] in body && place[2] == body[0];
  }

  lemma StartIsBraced()
    ensures Braced(START_PLACEHOLDER, "oauth.start_url}}")
  {
  }

  lemma TeamsIsBraced()
    ensures Braced(TEAMS_PLACEHOLDER, "oauth.teams.connectionName}}")
  {
  }

  /** The shape of the two placeholders: two opening braces, no more, and neither starts the other. */
  ghost predicate PlaceholderPair(a: string, b: string) {
    && 2 < |a| <= |b| && b[..|a|] != a
    && a[0] == a[1] == b[0] == b[1] == '{' && b[2] != '{' && '{' !in b[2..]
  }

  lemma PlaceholdersDiffer()
    ensures PlaceholderPair(START_PLACEHOLDER, TEAMS_PLACEHOLDER)
  {
    PlaceholderFronts();
    StartIsBraced();
    TeamsIsBraced();
    BracedMeaning(START_PLACEHOLDER, "oauth.start_url}}");
    BracedMeaning(TEAMS_PLACEHOLDER, "oauth.teams.connectionName}}");
  }

  lemma DropPlaceholder(head: string, place: string, rest: string, other: string, to: string)
    requires 2 <= |other| <= |place| && place[..|other|] != other && |place| > 2 && place[2] != other[1]
    requires other[0] == place[0] && place[0] !in place[2..] && place[0] !in head && place[0] !in rest
    ensures Replace(Replace(head + (place + rest), other, to), place, "") == head + rest
  {
    var tail := place + rest;
    assert tail[..|other|] == place[..|other|];
    ReplaceAcross(place, rest, other, to);
    ReplaceNowhere(rest, other, to);
    ReplaceSkips(head, tail, other, to);
    ReplaceMiddle(head, place, rest);
  }

  lemma MarkerAssembled(head: string, rest: string, kind: string, r: Resolution)
    requires head + rest == START_MARKER && '{' !in head && '{' !in rest
    requires EqualIgnoringCase(kind, "Action.OpenUrl") && '{' !in kind && !r.teamsNative
    ensures var v := Obj([Member("type", Str(kind)), Member("url", Str(head + (TEAMS_PLACEHOLDER + rest)))]);
            !ContainsStartMarker(v) && ContainsStartMarker(Rewrite(v, r))
  {
    PlaceholdersDiffer();
    DropPlaceholder(head, TEAMS_PLACEHOLDER, rest, START_PLACEHOLDER, r.startUrl);
    ReplaceNowhere(kind, START_PLACEHOLDER, r.startUrl);
    ReplaceNowhere(kind, TEAMS_PLACEHOLDER, "");
    assert |head + (TEAMS_PLACEHOLDER + rest)| > |head + rest|;
    var url := head + (TEAMS_PLACEHOLDER + rest);
    var fields, last := [Member("type", Str(kind)), Member("url", Str(url))], [Member("url", Str(url))];
    assert fields[1..] == last && last[1..] == [];
    assert Get(fields, "type") == Some(Str(kind)) && Get(fields, "url") == Get(last, "url") == Some(Str(url));
    assert AnyField(fields) == AnyField(last) == AnyField([]);
    RewriteLeavesMarkerIff(Obj(fields), r);
  }

  /** A card without a start marker that rewriting gives one: outside a teams provider dropping the
      placeholder puts the marker together. */
  lemma RewriteCanMakeMarker(r: Resolution)
    requires !r.teamsNative
    ensures var v := Obj([Member("type", Str("Action.OpenUrl")),
                          Member("url", Str("oauth://" + (TEAMS_PLACEHOLDER + "start")))]);
            !ContainsStartMarker(v) && ContainsStartMarker(Rewrite(v, r))
  {
    assert "oauth://" + "start" == START_MARKER;
    MarkerAssembled("oauth://", "start", "Action.OpenUrl", r);
  }

  // ----- cards without placeholder text afterwards

  /** Every opening brace of the text belongs to a whole `a` or `b`. */
  predicate OnlyIn(text: string, a: string, b: string)
    requires a != "" && b != ""
    decreases |text|
  {
    text == ""
    || (a <= text && OnlyIn(text[|a|..], a, b))
    || (b <= text && OnlyIn(text[|b|..], a, b))
    || (text[0] != '{' && OnlyIn(text[1..], a, b))
  }

  lemma {:induction false} OnlyInPrepend(plain: string, rest: string, a: string, b: string)
    requires a != "" && b != "" && '{' !in plain && OnlyIn(rest, a, b)
    ensures OnlyIn(plain + rest, a, b)
  {
    if plain == "" {
      assert plain + rest == rest;
    } else {
      OnlyInPrepend(plain[1..], rest, a, b);
      assert (plain + rest)[1..] == plain[1..] + rest;
    }
  }

  lemma OnePrefixOnly(text: string, a: string, b: string)
    requires a <= text && |a| <= |b| && b[..|a|] != a
    ensures !(b <= text)
  {
    var k :| 0 <= k < |a| && b[..|a|][k] != a[k];
    assert text[k] == a[k] != b[k];
  }

  /** Replacing the first placeholder by a text without braces leaves only the second. */
  lemma {:induction false} FirstReplaced(text: string, a: string, b: string, to: string)
    requires PlaceholderPair(a, b) && OnlyIn(text, a, b) && '{' !in to
    ensures OnlyIn(Replace(text, a, to), b, b)
    decreases |text|
  {
    if text == "" {
    } else if a <= text {
      OnePrefixOnly(text, a, b);
      FirstReplaced(text[|a|..], a, b, to);
      OnlyInPrepend(to, Replace(text[|a|..], a, to), b, b);
    } else if b <= text {
      var rest := text[|b|..];
      assert text == b + rest;
      FirstReplaced(rest, a, b, to);
      assert b[2] in b[2..];
      ReplaceAcross(b, rest, a, to);
      var r := b + Replace(rest, a, to);
      assert r[|b|..] == Replace(rest, a, to);
    } else {
      FirstReplaced(text[1..], a, b, to);
      OnlyInPrepend([text[0]], Replace(text[1..], a, to), b, b);
    }
  }

  /** Replacing the second one too leaves no opening brace. */
  lemma {:induction false} SecondReplaced(text: string, b: string, to: string)
    requires b != "" && b[0] == '{' && OnlyIn(text, b, b) && '{' !in to
    ensures '{' !in Replace(text, b, to)
    decreases |text|
  {
    if text == "" {
    } else if b <= text {
      SecondReplaced(text[|b|..], b, to);
    } else {
      SecondReplaced(text[1..], b, to);
    }
  }

  lemma {:induction false} NoBraceNoPlaceholder(text: string, place: string)
    requires '{' !in text && place != "" && place[0] == '{'
    ensures !ContainsText(text, place)
  {
    if text != "" {
      NoBraceNoPlaceholder(text[1..], place);
    }
  }

  ghost predicate PlainResolution(r: Resolution) {
    '{' !in r.startUrl && (r.connectionName.Some? ==> '{' !in r.connectionName.value)
  }

  lemma {:induction false} TextBecomesClean(text: string, r: Resolution)
    requires OnlyIn(text, START_PLACEHOLDER, TEAMS_PLACEHOLDER) && PlainResolution(r)
    ensures CleanText(RewriteText(text, r))
  {
    PlaceholdersDiffer();
    var name := if r.teamsNative && r.connectionName.Some? then r.connectionName.value else "";
    FirstReplaced(text, START_PLACEHOLDER, TEAMS_PLACEHOLDER, r.startUrl);
    SecondReplaced(Replace(text, START_PLACEHOLDER, r.startUrl), TEAMS_PLACEHOLDER, name);
    NoBraceNoPlaceholder(RewriteText(text, r), START_PLACEHOLDER);
    NoBraceNoPlaceholder(RewriteText(text, r), TEAMS_PLACEHOLDER);
  }

  /** In every text of the card each opening brace belongs to a whole placeholder. */
  predicate WellPlaced(v: Json)
    decreases Size(v), 0
  {
    match v
    case Str(text) => OnlyIn(text, START_PLACEHOLDER, TEAMS_PLACEHOLDER)
    case Arr(items) => WellPlacedItems(items)
    case Obj(fields) => WellPlacedFields(fields)
    case _ => true
  }

  predicate WellPlacedItems(items: seq<Json>)
    decreases ItemsSize(items), 1
  {
    items == [] || (WellPlaced(items[0]) && WellPlacedItems(items[1..]))
  }

  predicate WellPlacedFields(fields: seq<Member>)
    decreases FieldsSize(fields), 1
  {
    fields == [] || (WellPlaced(fields[0].value) && WellPlacedFields(fields[1..]))
  }

  lemma {:induction false} WellPlacedPut(fields: seq<Member>, key: string, text: string)
    requires WellPlacedFields(fields) && '{' !in text
    ensures WellPlacedFields(Put(fields, key, text))
    ensures WellPlacedFields(Delete(fields, key))
  {
    OnlyInPrepend(text, "", START_PLACEHOLDER, TEAMS_PLACEHOLDER);
    assert text + "" == text;
    if fields != [] && fields[0].key != key {
      WellPlacedPut(fields[1..], key, text);
    }
  }

  lemma WellPlacedPatch(fields: seq<Member>, r: Resolution)
    requires WellPlacedFields(fields) && PlainResolution(r)
    ensures WellPlacedFields(Patch(fields, r))
  {
    var linked := if IsMarked(fields) then Put(fields, "url", r.startUrl) else fields;
    WellPlacedPut(fields, "url", r.startUrl);
    WellPlacedPut(linked, "connectionName", if r.connectionName.Some? then r.connectionName.value else "");
  }

  /** A card whose opening braces all belong to whole placeholders holds no placeholder text after
      rewriting, when start url and connection name have no opening brace. */
  lemma {:induction false} RewriteLeavesNoPlaceholder(v: Json, r: Resolution)
    requires WellPlaced(v) && PlainResolution(r)
    ensures Clean(Rewrite(v, r))
    decreases Size(v), 0
  {
    match v
    case Obj(fields) =>
      WellPlacedPatch(fields, r);
      FieldsLeaveNoPlaceholder(Patch(fields, r), r);
    case Arr(items) => ItemsLeaveNoPlaceholder(items, r);
    case Str(text) => TextBecomesClean(text, r);
    case _ =>
  }

  lemma {:induction false} ItemsLeaveNoPlaceholder(items: seq<Json>, r: Resolution)
    requires WellPlacedItems(items) && PlainResolution(r)
    ensures CleanItems(RewriteItems(items, r))
    decreases ItemsSize(items), 1
  {
    if items != [] {
      RewriteLeavesNoPlaceholder(items[0], r);
      ItemsLeaveNoPlaceholder(items[1..], r);
    }
  }

  lemma {:induction false} FieldsLeaveNoPlaceholder(fields: seq<Member>, r: Resolution)
    requires WellPlacedFields(fields) && PlainResolution(r)
    ensures CleanFields(RewriteFields(fields, r))
    decreases FieldsSize(fields), 1
  {
    if fields != [] {
      RewriteLeavesNoPlaceholder(fields[0].value, r);
      FieldsLeaveNoPlaceholder(fields[1..], r);
    }
  }

  /** One placeholder cut in two by the other: dropping the inner one puts the outer one together. */
  lemma NestedPlaceholder(head: string, inner: string, rest: string, outer: string, to: string)
    requires PlaceholderPair(outer, inner) && head + rest == outer && 2 < |head| < |outer|
    requires '{' !in head[2..] && '{' !in rest
    ensures Replace(Replace(head + (inner + rest), outer, to), inner, "") == outer
  {
    var tail := inner + rest;
    var text := head + tail;
    assert head[2] in head[2..] && inner[2] in inner[2..];
    assert head[0] == outer[0] && head[1] == outer[1];
    assert text[|head|] == '{' && outer[|head|] == rest[0] && rest[0] in rest;
    assert inner[|head|] in inner[2..];
    assert tail[..|outer|] == inner[..|outer|];
    ReplaceAcross(head, tail, outer, to);
    ReplaceAcross(inner, rest, outer, to);
    ReplaceNowhere(rest, outer, to);
    ReplaceAcross(head, tail, inner, "");
    ReplaceMiddle("", inner, rest);
    assert "" + tail == tail && "" + rest == rest;
  }

  lemma NestedText(head: string, rest: string, r: Resolution)
    requires head + rest == START_PLACEHOLDER && 2 < |head| < |START_PLACEHOLDER| && !r.teamsNative
    requires '{' !in head[2..] && '{' !in rest
    ensures var text := head + (TEAMS_PLACEHOLDER + rest);
            RewriteText(text, r) == START_PLACEHOLDER && !Clean(Rewrite(Str(text), r))
  {
    PlaceholdersDiffer();
    NestedPlaceholder(head, TEAMS_PLACEHOLDER, rest, START_PLACEHOLDER, r.startUrl);
    var outer := START_PLACEHOLDER;
    ContainsAt(outer, 0, outer);
  }

  /** So rewriting can leave a placeholder behind that was not in the card. */
  lemma RewriteCanLeavePlaceholder(r: Resolution)
    requires !r.teamsNative
    ensures var text := "{{oauth." + (TEAMS_PLACEHOLDER + "start_url}}");
            RewriteText(text, r) == START_PLACEHOLDER && !Clean(Rewrite(Str(text), r))
  {
    var head, rest := "{{oauth.", "start_url}}";
    assert head + rest == START_PLACEHOLDER;
    assert head[2..] == "oauth.";
    NestedText(head, rest, r);
  }
}
