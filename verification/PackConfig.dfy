/** Emitting the pack-config-input file: the FormSpec split of one provider's answers. */
module PackConfig {
  import opened Sequences
  import opened SecretSeeding

  datatype Question = Question(id: string, secret: bool)

  type Form = seq<Question>

  datatype PackConfigInput = PackConfigInput(
    packId: string, envId: string, bundleId: string,
    nonSecret: map<string, Answer>, secretRefs: map<string, string>)

  /** What one call produces, whatever was on disk: an error, no file, or this file. */
  datatype Emission = Rejected | Nothing | File(input: PackConfigInput)

  /** One call; `visible` is what the visibility rules resolve to for this form and these answers,
      `config` is None when the answers are not an object. */
  datatype Call = Call(
    envId: string, bundleId: string, packId: string, config: Option<seq<Field>>, form: Form,
    visible: map<string, bool>)

  predicate ValidSegment(s: string) { s != "" && '/' !in s && s != "." && s != ".." }

  predicate IsSecret(form: Form, key: string) { exists i :: 0 <= i < |form| && form[i].id == key && form[i].secret }

  predicate IsVisible(form: Form, visible: map<string, bool>, key: string) {
    exists i :: 0 <= i < |form| && form[i].id == key && (key in visible ==> visible[key])
  }

  /** A visible, non-blank answer. */
  predicate Kept(c: Call, f: Field) { IsVisible(c.form, c.visible, f.key) && !IsBlankAnswer(f.value) }

  function SecretRef(c: Call, key: string): string {
    "secret://" + c.envId + "/" + c.bundleId + "/" + c.packId + "/" + key
  }

  function NonSecrets(c: Call, fields: seq<Field>): map<string, Answer> {
    if fields == [] then map[]
    else
      var f := fields[|fields| - 1];
      var before := NonSecrets(c, fields[..|fields| - 1]);
      if Kept(c, f) && !IsSecret(c.form, f.key) then before[f.key := f.value] else before
  }

  function SecretRefs(c: Call, fields: seq<Field>): map<string, string> {
    if fields == [] then map[]
    else
      var f := fields[|fields| - 1];
      var before := SecretRefs(c, fields[..|fields| - 1]);
      if Kept(c, f) && IsSecret(c.form, f.key) then before[f.key := SecretRef(c, f.key)] else before
  }

  predicate GoodKeys(c: Call, fields: seq<Field>) {
    forall i :: 0 <= i < |fields| && Kept(c, fields[i]) && IsSecret(c.form, fields[i].key) ==>
      ValidSegment(fields[i].key)
  }

  predicate ValidIds(c: Call) { ValidSegment(c.envId) && ValidSegment(c.bundleId) && ValidSegment(c.packId) }

  function Fields(c: Call): seq<Field> { if c.config.None? then [] else c.config.value }

  function Emitted(c: Call): Emission {
    if !ValidIds(c) || !GoodKeys(c, Fields(c)) then Rejected
    else
      var nonSecret, secretRefs := NonSecrets(c, Fields(c)), SecretRefs(c, Fields(c));
      if nonSecret == map[] && secretRefs == map[] then Nothing
      else File(PackConfigInput(c.packId, c.envId, c.bundleId, nonSecret, secretRefs))
  }

  /** The files after a call: untouched by an error, otherwise exactly what the call produces. */
  function AfterCall(files: map<string, PackConfigInput>, c: Call): map<string, PackConfigInput> {
    match Emitted(c)
    case Rejected => files
    case Nothing => files - {c.packId}
    case File(input) => files[c.packId := input]
  }

  /** One turn of the loop over the answers. */
  lemma MapsStep(c: Call, fields: seq<Field>, i: nat)
    requires i < |fields|
    ensures var f, kept := fields[i], Kept(c, fields[i]);
            && NonSecrets(c, fields[..i + 1])
               == (if kept && !IsSecret(c.form, f.key) then NonSecrets(c, fields[..i])[f.key := f.value]
                   else NonSecrets(c, fields[..i]))
            && SecretRefs(c, fields[..i + 1])
               == (if kept && IsSecret(c.form, f.key) then SecretRefs(c, fields[..i])[f.key := SecretRef(c, f.key)]
                   else SecretRefs(c, fields[..i]))
            && (GoodKeys(c, fields[..i + 1]) <==>
                GoodKeys(c, fields[..i]) && (kept && IsSecret(c.form, f.key) ==> ValidSegment(f.key)))
  {
    var upTo := fields[..i + 1];
    assert upTo[..|upTo| - 1] == fields[..i] && upTo[|upTo| - 1] == fields[i];
    assert forall j :: 0 <= j < i ==> upTo[j] == fields[..i][j];
  }

  class BundleConfigs {
    var files: map<string, PackConfigInput>

    constructor ()
      ensures files == map[]
    {
      files := map[];
    }

    method RemoveStale(packId: string)
      modifies this
      ensures files == old(files) - {packId}
    {
      files := files - {packId};
    }

    /** The loop over the answers; None when a secret's key is no path segment. */
    static method SplitAnswers(c: Call, fields: seq<Field>)
      returns (split: Option<(map<string, Answer>, map<string, string>)>)
      ensures split == if GoodKeys(c, fields) then Some((NonSecrets(c, fields), SecretRefs(c, fields))) else None
    {
      var nonSecret: map<string, Answer> := map[];
      var secretRefs: map<string, string> := map[];
      for i := 0 to |fields|
        invariant nonSecret == NonSecrets(c, fields[..i])
        invariant secretRefs == SecretRefs(c, fields[..i])
        invariant GoodKeys(c, fields[..i])
      {
        var f := fields[i];
        MapsStep(c, fields, i);
        if !IsVisible(c.form, c.visible, f.key) {
          continue;
        }
        var text := TextOf(f.value);
        if text == "" || text == "null" {
          continue;
        }
        if IsSecret(c.form, f.key) {
          if !ValidSegment(f.key) {
            assert Kept(c, fields[i]);
            return None;
          }
          secretRefs := secretRefs[f.key := SecretRef(c, f.key)];
        } else {
          nonSecret := nonSecret[f.key := f.value];
        }
      }
      assert fields[..|fields|] == fields;
      return Some((nonSecret, secretRefs));
    }

    method EmitPackConfigInput(c: Call) returns (emission: Emission)
      modifies this
      ensures emission == Emitted(c)
      ensures files == AfterCall(old(files), c)
    {
      if !ValidSegment(c.envId) || !ValidSegment(c.bundleId) || !ValidSegment(c.packId) {
        return Rejected;
      }
      if c.config.None? || c.config.value == [] {
        RemoveStale(c.packId);
        return Nothing;
      }
      var split := SplitAnswers(c, c.config.value);
      if split.None? {
        return Rejected;
      }
      var (nonSecret, secretRefs) := split.value;
      if nonSecret == map[] && secretRefs == map[] {
        RemoveStale(c.packId);
        return Nothing;
      }
      var input := PackConfigInput(c.packId, c.envId, c.bundleId, nonSecret, secretRefs);
      files := files[c.packId := input];
      return File(input);
    }
  }

  // ----- what one call emits

  /** Keys of a JSON object are distinct. */
  ghost predicate DistinctKeys(fields: seq<Field>) {
    forall i, j :: 0 <= i < j < |fields| ==> fields[i].key != fields[j].key
  }

  predicate HasKey(fields: seq<Field>, key: string) {
    fields != [] && (fields[|fields| - 1].key == key || HasKey(fields[..|fields| - 1], key))
  }

  lemma {:induction false} HasKeyMeaning(fields: seq<Field>, key: string)
    ensures HasKey(fields, key) <==> exists i :: 0 <= i < |fields| && fields[i].key == key
  {
    if fields != [] {
      HasKeyMeaning(fields[..|fields| - 1], key);
    }
  }

  lemma {:induction false} MapKeys(c: Call, fields: seq<Field>, key: string)
    ensures key in NonSecrets(c, fields) ==> HasKey(fields, key) && !IsSecret(c.form, key)
    ensures key in SecretRefs(c, fields) ==>
              HasKey(fields, key) && IsSecret(c.form, key) && SecretRefs(c, fields)[key] == SecretRef(c, key)
  {
    if fields != [] {
      MapKeys(c, fields[..|fields| - 1], key);
    }
  }

  /** Where the `i`-th answer goes. */
  lemma {:induction false} AnswerGoesTo(c: Call, fields: seq<Field>, i: nat)
    requires DistinctKeys(fields) && i < |fields|
    ensures var f := fields[i];
            && (f.key in NonSecrets(c, fields) <==> Kept(c, f) && !IsSecret(c.form, f.key))
            && (f.key in NonSecrets(c, fields) ==> NonSecrets(c, fields)[f.key] == f.value)
            && (f.key in SecretRefs(c, fields) <==> Kept(c, f) && IsSecret(c.form, f.key))
  {
    var m := |fields| - 1;
    var front := fields[..m];
    if i < m {
      assert front[i] == fields[i] && fields[i].key != fields[m].key;
      AnswerGoesTo(c, front, i);
    } else {
      HasKeyMeaning(front, fields[m].key);
      assert forall j :: 0 <= j < m ==> front[j].key == fields[j].key && fields[j].key != fields[m].key;
      MapKeys(c, front, fields[m].key);
    }
  }

  ghost predicate NothingKept(c: Call, fields: seq<Field>) {
    forall i :: 0 <= i < |fields| ==> !Kept(c, fields[i])
  }

  lemma {:induction false} EmptyMapsIff(c: Call, fields: seq<Field>)
    ensures |NonSecrets(c, fields)| == 0 && |SecretRefs(c, fields)| == 0 <==> NothingKept(c, fields)
  {
    if fields != [] {
      var m := |fields| - 1;
      EmptyMapsIff(c, fields[..m]);
      assert NothingKept(c, fields) <==> NothingKept(c, fields[..m]) && !Kept(c, fields[m]);
      var key := fields[m].key;
      if Kept(c, fields[m]) {
        assert key in NonSecrets(c, fields) || key in SecretRefs(c, fields);
      }
    }
  }

  /** There is no file exactly when no answer is visible and non-blank; otherwise the two key sets
      partition the visible non-blank answers, secrets as references, the rest with their values. */
  lemma EmittedPartitionsAnswers(c: Call)
    requires ValidIds(c) && GoodKeys(c, Fields(c)) && DistinctKeys(Fields(c))
    ensures Emitted(c).Nothing? <==> NothingKept(c, Fields(c))
    ensures Emitted(c).File? ==>
              var file := Emitted(c).input;
              && file.packId == c.packId
              && (forall k :: k in file.nonSecret ==> k !in file.secretRefs && HasKey(Fields(c), k))
              && (forall k :: k in file.secretRefs ==> file.secretRefs[k] == SecretRef(c, k) && HasKey(Fields(c), k))
              && (forall i :: 0 <= i < |Fields(c)| ==>
                    var f := Fields(c)[i];
                    && (f.key in file.secretRefs <==> Kept(c, f) && IsSecret(c.form, f.key))
                    && (f.key in file.nonSecret <==> Kept(c, f) && !IsSecret(c.form, f.key))
                    && (f.key in file.nonSecret ==> file.nonSecret[f.key] == f.value))
  {
    var fields := Fields(c);
    EmptyMapsIff(c, fields);
    forall k {
      MapKeys(c, fields, k);
    }
    forall i | 0 <= i < |fields| {
      AnswerGoesTo(c, fields, i);
    }
  }

  // ----- histories

  function Run(files: map<string, PackConfigInput>, calls: seq<Call>): map<string, PackConfigInput> {
    if calls == [] then files else AfterCall(Run(files, calls[..|calls| - 1]), calls[|calls| - 1])
  }

  /** The identifiers are path segments, and so are the keys of the visible non-blank secret answers. */
  predicate Accepted(c: Call) { ValidIds(c) && GoodKeys(c, Fields(c)) }

  /** The last accepted call for a pack. */
  function LastFor(calls: seq<Call>, packId: string): Option<Call> {
    if calls == [] then None
    else
      var c := calls[|calls| - 1];
      if c.packId == packId && Accepted(c) then Some(c) else LastFor(calls[..|calls| - 1], packId)
  }

  /** After any sequence of calls a pack's file is exactly what its last successful call alone would
      have produced: nothing of an earlier call survives it, and a rejected call changes nothing. */
  lemma {:induction false} FileIsLastCallAlone(calls: seq<Call>, packId: string)
    ensures var files := Run(map[], calls);
            match LastFor(calls, packId)
            case None => packId !in files
            case Some(c) => match Emitted(c)
                            case Nothing => packId !in files
                            case File(input) => packId in files && files[packId] == input
                            case Rejected => false
  {
    if calls != [] {
      FileIsLastCallAlone(calls[..|calls| - 1], packId);
    }
  }

  function FileOf(files: map<string, PackConfigInput>, packId: string): Option<PackConfigInput> {
    if packId in files then Some(files[packId]) else None
  }

  /** The last call for a pack, accepted or not. */
  function LastCall(calls: seq<Call>, packId: string): Option<Call> {
    if calls == [] then None
    else
      var c := calls[|calls| - 1];
      if c.packId == packId then Some(c) else LastCall(calls[..|calls| - 1], packId)
  }

  lemma {:induction false} LastCallAccepted(calls: seq<Call>, packId: string)
    ensures LastCall(calls, packId).Some? ==> LastCall(calls, packId).value.packId == packId
    ensures LastFor(calls, packId).Some? ==> LastFor(calls, packId).value.packId == packId
    ensures LastCall(calls, packId).Some? && !Emitted(LastCall(calls, packId).value).Rejected? ==>
              LastFor(calls, packId) == LastCall(calls, packId)
  {
    if calls != [] {
      LastCallAccepted(calls[..|calls| - 1], packId);
    }
  }

  /** A call leaves a file exactly when it is accepted and keeps some answer. */
  lemma FileIff(c: Call)
    ensures Emitted(c).File? <==> Accepted(c) && !NothingKept(c, Fields(c))
    ensures Emitted(c).Rejected? <==> !Accepted(c)
  {
    EmptyMapsIff(c, Fields(c));
  }

  /** Stale files: after any sequence of calls a pack's file differs from what the last call for it alone
      would have produced exactly when that call is rejected and the last accepted one had a visible,
      non-blank answer. */
  lemma {:induction false} StaleFileIff(calls: seq<Call>, packId: string)
    requires LastCall(calls, packId).Some?
    ensures var last := LastCall(calls, packId).value;
            FileOf(Run(map[], calls), packId) != FileOf(AfterCall(map[], last), packId) <==>
              !Accepted(last)
              && LastFor(calls, packId).Some?
              && !NothingKept(LastFor(calls, packId).value, Fields(LastFor(calls, packId).value))
  {
    FileIsLastCallAlone(calls, packId);
    LastCallAccepted(calls, packId);
    FileIff(LastCall(calls, packId).value);
    if LastFor(calls, packId).Some? {
      FileIff(LastFor(calls, packId).value);
    }
  }

  /** A call with one plain visible answer. */
  lemma OneAnswerEmitted(c: Call, f: Field)
    requires ValidIds(c) && c.config == Some([f]) && Kept(c, f) && !IsSecret(c.form, f.key)
    ensures Emitted(c) == File(PackConfigInput(c.packId, c.envId, c.bundleId, map[f.key := f.value], map[]))
  {
    var fields := Fields(c);
    assert fields[..0] == [];
    var none: map<string, string> := map[];
    assert SecretRefs(c, fields) == none;
    assert NonSecrets(c, fields) == map[f.key := f.value];
    assert f.key in NonSecrets(c, fields);
    assert GoodKeys(c, fields);
  }

  /** A call with one visible secret answer under a key that is no path segment. */
  lemma BadKeyRejected(c: Call, f: Field)
    requires c.config == Some([f]) && Kept(c, f) && IsSecret(c.form, f.key) && !ValidSegment(f.key)
    ensures Emitted(c).Rejected?
  {
    assert Fields(c)[0] == f;
  }

  /** A secret question whose id holds a slash: answering it has the call rejected, and the file of
      the call before stays. */
  lemma SlashedSecretLeavesStaleFile(first: Call, second: Call)
    requires first == Call("dev", "b", "p", Some([Field("url", Text("x"))]),
                           [Question("url", false), Question("a/b", true)], map[])
    requires second == first.(config := Some([Field("a/b", Text("y"))]))
    ensures FileOf(AfterCall(map[], second), "p").None?
    ensures FileOf(Run(map[], [first, second]), "p")
         == Some(PackConfigInput("p", "dev", "b", map["url" := Text("x")], map[]))
  {
    var f, g := Field("url", Text("x")), Field("a/b", Text("y"));
    assert first.form[0].id == "url" && second.form[1].id == "a/b" && "a/b"[1] == '/';
    OneAnswerEmitted(first, f);
    BadKeyRejected(second, g);
    var two, one := [first, second], [first];
    assert two[..1] == one && one[..0] == [];
    assert Run(map[], two) == AfterCall(Run(map[], one), second);
  }

  // ----- secret answers do not show

  /** The same answers up to the text of secret ones, which are blank or not alike. */
  ghost predicate SamePublicView(form: Form, a: seq<Field>, b: seq<Field>) {
    |a| == |b| && forall i :: 0 <= i < |a| ==> SamePublicField(form, a[i], b[i])
  }

  ghost predicate SamePublicField(form: Form, f: Field, g: Field) {
    f.key == g.key
    && if IsSecret(form, f.key) then IsBlankAnswer(f.value) == IsBlankAnswer(g.value) else f.value == g.value
  }

  lemma {:induction false} SameMaps(c: Call, a: seq<Field>, b: seq<Field>)
    requires SamePublicView(c.form, a, b)
    ensures NonSecrets(c, a) == NonSecrets(c, b) && SecretRefs(c, a) == SecretRefs(c, b)
  {
    if a != [] {
      var m := |a| - 1;
      assert SamePublicField(c.form, a[m], b[m]);
      forall i | 0 <= i < m ensures SamePublicField(c.form, a[..m][i], b[..m][i]) {
        assert SamePublicField(c.form, a[i], b[i]);
      }
      SameMaps(c, a[..m], b[..m]);
    }
  }

  lemma SameGoodKeys(c: Call, a: seq<Field>, b: seq<Field>)
    requires SamePublicView(c.form, a, b)
    ensures GoodKeys(c, a) == GoodKeys(c, b)
  {
    forall i | 0 <= i < |a|
      ensures a[i].key == b[i].key && (IsSecret(c.form, a[i].key) ==> Kept(c, a[i]) == Kept(c, b[i]))
    {
      assert SamePublicField(c.form, a[i], b[i]);
    }
  }

  /** Changing secret answers to other non-blank values, visibility unchanged, changes nothing in
      what is emitted: the file carries no information about the secrets' text. */
  lemma SecretsDoNotShow(c: Call, other: seq<Field>)
    requires c.config.Some? && SamePublicView(c.form, c.config.value, other)
    ensures Emitted(c.(config := Some(other))) == Emitted(c)
  {
    var d := c.(config := Some(other));
    var fields := c.config.value;
    SameMaps(c, fields, other);
    SameGoodKeys(c, fields, other);
    ConfigDoesNotMatter(c, d, other);
  }

  lemma {:induction false} ConfigDoesNotMatter(c: Call, d: Call, fields: seq<Field>)
    requires d == c.(config := d.config)
    ensures NonSecrets(d, fields) == NonSecrets(c, fields) && SecretRefs(d, fields) == SecretRefs(c, fields)
    ensures GoodKeys(d, fields) == GoodKeys(c, fields)
  {
    assert forall f :: Kept(d, f) == Kept(c, f);
    if fields != [] {
      ConfigDoesNotMatter(c, d, fields[..|fields| - 1]);
    }
  }
}
