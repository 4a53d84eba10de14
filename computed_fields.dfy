/** Computed fields (dist/computed-fields.js): fields named in the
    plugin's `computed-fields` list may be `javascript` fields whose script
    returns the field to use. `oneField`, `allFields` and `allEventTags`
    are replaced by versions that run such scripts; the script runner
    `runJSSync` is the evaluator `eval`, which gives the returned field or
    nothing (the script threw or returned a non-object). */
module ComputedFields {
  import opened Host

  /** A field value, with JavaScript truthiness. */
  datatype Value = Str(s: string) | Num(n: int) | Bool(b: bool) | Nothing | Obj(id: nat)

  predicate Truthy(v: Value)
  {
    match v
    case Str(s) => s != ""
    case Num(n) => n != 0
    case Bool(b) => b
    case Nothing => false
    case Obj(_) => true
  }

  /** An event field: its name, its type (`kind`, "" when missing) and its
      data. */
  datatype Field = Field(key: string, kind: string, data: Value)

  const JAVASCRIPT: string := "javascript"
  const TAG: string := "tag"

  /** `runJSSync(event, js)` for the event at hand. */
  type Evaluator = Value -> Option<Field>

  // ---------------------------------------------------------------------
  // The computed-fields list

  /** The names in the `computed-fields` text: its non-empty lines
      (dist/computed-fields.js:62). A missing text is empty. */
  function ComputedNames(text: Option<string>): set<string>
  {
    var t := if text.Some? then text.value else "";
    set line | line in Split(t, '\n') && line != ""
  }

  /** A name is computed exactly when it is a non-empty line of the text. */
  lemma ComputedNamesRule(text: string, name: string)
    ensures name in ComputedNames(Some(text)) <==>
              name != "" && '\n' !in name && exists k :: 0 <= k < |Split(text, '\n')| && Split(text, '\n')[k] == name
  {
    if name in ComputedNames(Some(text)) {
      var pieces := Split(text, '\n');
      var k :| 0 <= k < |pieces| && pieces[k] == name;
    }
  }

  /** Writing names one per line and reading them back gives the same
      names. */
  lemma ComputedNamesRoundTrip(names: seq<string>)
    requires names != []
    requires forall k :: 0 <= k < |names| ==> names[k] != "" && '\n' !in names[k]
    ensures ComputedNames(Some(Join(names, '\n'))) == set k | 0 <= k < |names| :: names[k]
  {
    SplitJoin(names, '\n');
  }

  // ---------------------------------------------------------------------
  // Type matching

  /** `field.type === (type ?? field.type)`: any type matches a missing
      requested type. */
  predicate Matches(kind: string, requested: Option<string>)
  {
    requested.None? || kind == requested.value
  }

  /** `!type || computed.type === type`: an empty requested type accepts
      any type too. */
  predicate Accepts(kind: string, requested: Option<string>)
  {
    requested.None? || requested.value == "" || kind == requested.value
  }

  /** An evaluated field is usable when it has a type and truthy data. */
  predicate Usable(c: Option<Field>)
  {
    c.Some? && c.value.kind != "" && Truthy(c.value.data)
  }

  // ---------------------------------------------------------------------
  // oneField

  /** Whether field `i` satisfies `p`. */
  function FieldAt(fields: seq<Field>, p: Field -> bool): nat -> bool
  {
    (i: nat) => i < |fields| && p(fields[i])
  }

  /** `fields.find(p)`. */
  function Find(fields: seq<Field>, p: Field -> bool): (r: Option<Field>)
    ensures r.Some? ==> r.value in fields && p(r.value)
  {
    var i := First(|fields|, FieldAt(fields, p));
    if i.Some? then FirstRule(|fields|, FieldAt(fields, p)); Some(fields[i.value]) else None
  }

  /** The fields `oneField` and `allFields` look at without evaluation. */
  function Plain(name: string, requested: Option<string>): Field -> bool
  {
    (f: Field) => f.key == name && Matches(f.kind, requested)
  }

  /** The fields the computed path of `oneField` considers. */
  function Candidate(name: string, requested: Option<string>): Field -> bool
  {
    (f: Field) => f.key == name && (f.kind == JAVASCRIPT || Matches(f.kind, requested))
  }

  /** Whether a lookup of `name` takes the plain path: as written in
      `oneField` both conditions must hold (dist/computed-fields.js:88); the
      intended guard, as in `allFields` (dist/computed-fields.js:108), is
      either. */
  predicate PlainPath(name: string, requested: Option<string>, computed: set<string>, asWritten: bool)
  {
    if asWritten then name !in computed && requested == Some(JAVASCRIPT)
    else name !in computed || requested == Some(JAVASCRIPT)
  }

  /** `oneField` (dist/computed-fields.js:86-104) with its guard chosen by
      `asWritten`: the first field with the name that is javascript or of
      the requested type; a javascript one is replaced by its evaluation,
      renamed, or by nothing. */
  function OneFieldWith(fields: seq<Field>, name: string, requested: Option<string>, computed: set<string>,
                        eval: Evaluator, asWritten: bool): Option<Field>
  {
    if PlainPath(name, requested, computed, asWritten) then Find(fields, Plain(name, requested))
    else
      var r := Find(fields, Candidate(name, requested));
      if r.Some? && r.value.kind == JAVASCRIPT then
        var c := eval(r.value.data);
        if Usable(c) && Matches(c.value.kind, requested) then Some(c.value.(key := name)) else None
      else r
  }

  /** `oneField` as written. */
  function OneFieldAsWritten(fields: seq<Field>, name: string, requested: Option<string>, computed: set<string>, eval: Evaluator): Option<Field>
  {
    OneFieldWith(fields, name, requested, computed, eval, true)
  }

  /** `oneField` as intended: names outside the list are never evaluated. */
  function OneField(fields: seq<Field>, name: string, requested: Option<string>, computed: set<string>, eval: Evaluator): Option<Field>
  {
    OneFieldWith(fields, name, requested, computed, eval, false)
  }

  /** The plain lookup is the first field with the name and type: it finds
      a field exactly when there is one, and no earlier field qualifies. */
  lemma FindFirstMatch(fields: seq<Field>, p: Field -> bool)
    ensures Find(fields, p).None? <==> forall k :: 0 <= k < |fields| ==> !p(fields[k])
    ensures Find(fields, p).Some? ==>
              exists i :: 0 <= i < |fields| && Find(fields, p) == Some(fields[i]) && forall k :: 0 <= k < i ==> !p(fields[k])
  {
    var q := FieldAt(fields, p);
    FirstRule(|fields|, q);
    if First(|fields|, q).Some? {
      var i := First(|fields|, q).value;
      forall k | 0 <= k < i ensures !p(fields[k]) {
        assert !q(k);
      }
    } else {
      forall k | 0 <= k < |fields| ensures !p(fields[k]) {
        assert !q(k);
      }
    }
  }

  /** Whatever `oneField` returns carries the requested name; with a
      requested type it also has that type. */
  lemma OneFieldNamed(fields: seq<Field>, name: string, requested: Option<string>, computed: set<string>, eval: Evaluator, asWritten: bool)
    ensures var r := OneFieldWith(fields, name, requested, computed, eval, asWritten);
            r.Some? ==> r.value.key == name && (requested.Some? && requested.value != JAVASCRIPT ==> r.value.kind == requested.value)
  {
    var r := OneFieldWith(fields, name, requested, computed, eval, asWritten);
    if !PlainPath(name, requested, computed, asWritten) {
      var f := Find(fields, Candidate(name, requested));
      if f.Some? {
        assert Candidate(name, requested)(f.value);
      }
    } else if r.Some? {
      assert Plain(name, requested)(r.value);
    }
  }

  /** The computed path never falls through: when the first candidate is a
      javascript field whose evaluation is unusable, nothing is returned,
      whatever fields follow. */
  lemma OneFieldNoFallThrough(fields: seq<Field>, name: string, requested: Option<string>, computed: set<string>, eval: Evaluator, i: nat)
    requires !PlainPath(name, requested, computed, false)
    requires i < |fields| && fields[i].key == name && fields[i].kind == JAVASCRIPT
    requires forall k :: 0 <= k < i ==> !Candidate(name, requested)(fields[k])
    requires !Usable(eval(fields[i].data))
    ensures OneField(fields, name, requested, computed, eval) == None
  {
    var q := FieldAt(fields, Candidate(name, requested));
    FirstRule(|fields|, q);
    assert q(i);
    forall k | 0 <= k < i ensures !q(k) {
    }
  }

  /** With the corrected guard, a name outside the computed list (or a
      lookup of type javascript) is the plain lookup: the first field of
      that name and type, found exactly when there is one, and the same
      whatever the evaluator does. */
  lemma OneFieldPlainNames(fields: seq<Field>, name: string, requested: Option<string>, computed: set<string>,
                           eval: Evaluator, eval2: Evaluator)
    requires name !in computed || requested == Some(JAVASCRIPT)
    ensures OneField(fields, name, requested, computed, eval) == OneField(fields, name, requested, computed, eval2)
    ensures var r := OneField(fields, name, requested, computed, eval);
            (r.None? <==> forall k :: 0 <= k < |fields| ==> !(fields[k].key == name && Matches(fields[k].kind, requested))) &&
            (r.Some? ==> exists i :: 0 <= i < |fields| && r == Some(fields[i]) &&
                           fields[i].key == name && Matches(fields[i].kind, requested) &&
                           forall k :: 0 <= k < i ==> !(fields[k].key == name && Matches(fields[k].kind, requested)))
  {
    FindFirstMatch(fields, Plain(name, requested));
  }

  /** Where no field with the name is javascript, evaluation plays no part
      and both guards give the plain lookup's result. */
  lemma OneFieldWithoutScripts(fields: seq<Field>, name: string, requested: Option<string>, computed: set<string>, eval: Evaluator, asWritten: bool)
    requires forall k :: 0 <= k < |fields| && fields[k].key == name ==> fields[k].kind != JAVASCRIPT
    ensures OneFieldWith(fields, name, requested, computed, eval, asWritten) == Find(fields, Plain(name, requested))
  {
    var c := FieldAt(fields, Candidate(name, requested));
    var p := FieldAt(fields, Plain(name, requested));
    FirstRule(|fields|, c);
    FirstRule(|fields|, p);
    forall k | 0 <= k < |fields| ensures c(k) == p(k) {
    }
    FirstSame(|fields|, c, p);
  }

  /** Two searches with the same answers at every index agree. */
  lemma {:induction false} FirstSame(n: nat, p: nat -> bool, q: nat -> bool)
    requires forall k :: 0 <= k < n ==> p(k) == q(k)
    ensures First(n, p) == First(n, q)
  {
    if n > 0 {
      FirstSame(n - 1, p, q);
    }
  }

  /** A javascript field named like a non-computed name, looked up with
      no type: as written its script runs and its result is returned; as
      intended the field itself is. */
  lemma NonComputedScriptRuns()
    ensures var code := Field("solid", JAVASCRIPT, Str("return {type: 'tag', data: true}"));
            var eval: Evaluator := v => Some(Field("", TAG, Bool(true)));
            OneFieldAsWritten([code], "solid", None, {}, eval) == Some(Field("solid", TAG, Bool(true))) &&
            OneField([code], "solid", None, {}, eval) == Some(code)
  {
    var code := Field("solid", JAVASCRIPT, Str("return {type: 'tag', data: true}"));
    FindFirstMatch([code], Plain("solid", None));
    FindFirstMatch([code], Candidate("solid", None));
  }

  // ---------------------------------------------------------------------
  // allFields

  /** `fields.filter(p)`. */
  function Filter(fields: seq<Field>, p: Field -> bool): (r: seq<Field>)
    ensures |r| <= |fields|
  {
    if fields == [] then []
    else Filter(fields[..|fields| - 1], p) + (if p(fields[|fields| - 1]) then [fields[|fields| - 1]] else [])
  }

  /** What one field adds on the computed path of `allFields`
      (dist/computed-fields.js:114-129). */
  function Contribution(f: Field, name: string, requested: Option<string>, eval: Evaluator): seq<Field>
  {
    if f.key != name then []
    else if Matches(f.kind, requested) then [f]
    else if f.kind == JAVASCRIPT then
      var c := eval(f.data);
      if Usable(c) && Accepts(c.value.kind, requested) then [c.value.(key := name)] else []
    else []
  }

  /** The computed path of `allFields`: each field's contribution, in
      field order. */
  function Collected(fields: seq<Field>, name: string, requested: Option<string>, eval: Evaluator): (r: seq<Field>)
    ensures |r| <= |fields|
  {
    if fields == [] then []
    else Collected(fields[..|fields| - 1], name, requested, eval) + Contribution(fields[|fields| - 1], name, requested, eval)
  }

  /** `allFields` (dist/computed-fields.js:106-131). */
  function AllFields(fields: seq<Field>, name: string, requested: Option<string>, computed: set<string>, eval: Evaluator): seq<Field>
  {
    if PlainPath(name, requested, computed, false) then Filter(fields, Plain(name, requested))
    else Collected(fields, name, requested, eval)
  }

  /** Filtering keeps exactly the fields that satisfy the test. */
  lemma {:induction false} FilterMembers(fields: seq<Field>, p: Field -> bool)
    ensures forall f :: f in Filter(fields, p) <==> f in fields && p(f)
  {
    if fields != [] {
      var init := fields[..|fields| - 1];
      FilterMembers(init, p);
      assert fields == init + [fields[|fields| - 1]];
    }
  }

  /** Every field `allFields` returns has the name, and, for a requested
      non-empty type, that type. */
  lemma {:induction false} CollectedNamedTyped(fields: seq<Field>, name: string, requested: Option<string>, eval: Evaluator)
    ensures forall f :: f in Collected(fields, name, requested, eval) ==>
              f.key == name && (requested.Some? && requested.value != "" ==> f.kind == requested.value)
  {
    if fields != [] {
      CollectedNamedTyped(fields[..|fields| - 1], name, requested, eval);
    }
  }

  lemma AllFieldsNamedTyped(fields: seq<Field>, name: string, requested: Option<string>, computed: set<string>, eval: Evaluator)
    ensures forall f :: f in AllFields(fields, name, requested, computed, eval) ==>
              f.key == name && (requested.Some? && requested.value != "" ==> f.kind == requested.value)
  {
    FilterMembers(fields, Plain(name, requested));
    CollectedNamedTyped(fields, name, requested, eval);
  }

  /** Fields of the requested type are kept as they are on both paths. */
  lemma {:induction false} CollectedKeepsTyped(fields: seq<Field>, name: string, requested: Option<string>, eval: Evaluator)
    ensures forall f :: f in fields && f.key == name && Matches(f.kind, requested) ==> f in Collected(fields, name, requested, eval)
  {
    if fields != [] {
      var init := fields[..|fields| - 1];
      CollectedKeepsTyped(init, name, requested, eval);
      assert fields == init + [fields[|fields| - 1]];
    }
  }

  /** Without javascript fields of the name, the computed path is the plain
      filter: evaluation adds nothing. */
  lemma {:induction false} CollectedWithoutScripts(fields: seq<Field>, name: string, requested: Option<string>, eval: Evaluator)
    requires forall k :: 0 <= k < |fields| && fields[k].key == name ==> fields[k].kind != JAVASCRIPT
    ensures Collected(fields, name, requested, eval) == Filter(fields, Plain(name, requested))
  {
    if fields != [] {
      CollectedWithoutScripts(fields[..|fields| - 1], name, requested, eval);
    }
  }

  /** The plain path does not run any script. */
  lemma AllFieldsPlainNoEval(fields: seq<Field>, name: string, requested: Option<string>, computed: set<string>, eval1: Evaluator, eval2: Evaluator)
    requires name !in computed || requested == Some(JAVASCRIPT)
    ensures AllFields(fields, name, requested, computed, eval1) == AllFields(fields, name, requested, computed, eval2)
  {
  }

  /** The `forEach` loop of `allFields`, pushing each field's contribution. */
  method CollectFields(fields: seq<Field>, name: string, requested: Option<string>, computed: set<string>, eval: Evaluator)
    returns (result: seq<Field>)
    ensures result == AllFields(fields, name, requested, computed, eval)
  {
    if PlainPath(name, requested, computed, false) {
      return Filter(fields, Plain(name, requested));
    }
    result := [];
    var i := 0;
    while i < |fields|
      invariant 0 <= i <= |fields|
      invariant result == Collected(fields[..i], name, requested, eval)
    {
      assert fields[..i + 1][..i] == fields[..i];
      var field := fields[i];
      if field.key == name {
        if Matches(field.kind, requested) {
          result := result + [field];
        } else if field.kind == JAVASCRIPT {
          var c := eval(field.data);
          if c.Some? && c.value.kind != "" && Truthy(c.value.data) && (requested.None? || requested.value == "" || c.value.kind == requested.value) {
            result := result + [c.value.(key := name)];
          }
        }
      }
      i := i + 1;
    }
    assert fields[..|fields|] == fields;
  }

  // ---------------------------------------------------------------------
  // allEventTags

  /** Whether a field counts as a tag: a tag field, or a computed
      javascript field whose script returns a tag. */
  predicate IsTag(f: Field, computed: set<string>, eval: Evaluator)
  {
    f.kind == TAG || (f.key in computed && f.kind == JAVASCRIPT && eval(f.data).Some? && eval(f.data).value.kind == TAG)
  }

  /** `allEventTags` (dist/computed-fields.js:133-145): the keys of the tag
      fields, in field order. */
  function EventTags(fields: seq<Field>, computed: set<string>, eval: Evaluator): (tags: seq<string>)
    ensures |tags| <= |fields|
  {
    if fields == [] then []
    else
      var f := fields[|fields| - 1];
      EventTags(fields[..|fields| - 1], computed, eval) + (if IsTag(f, computed, eval) then [f.key] else [])
  }

  /** A key is listed exactly when some field with that key is a tag. */
  lemma {:induction false} EventTagsMembers(fields: seq<Field>, computed: set<string>, eval: Evaluator)
    ensures forall k :: k in EventTags(fields, computed, eval) <==>
              exists f :: f in fields && f.key == k && IsTag(f, computed, eval)
  {
    if fields != [] {
      var init := fields[..|fields| - 1];
      var last := fields[|fields| - 1];
      EventTagsMembers(init, computed, eval);
      assert fields == init + [last];
      forall k | k in EventTags(fields, computed, eval)
        ensures exists f :: f in fields && f.key == k && IsTag(f, computed, eval)
      {
        if k in EventTags(init, computed, eval) {
          var f :| f in init && f.key == k && IsTag(f, computed, eval);
          assert f in fields;
        } else {
          assert last in fields;
        }
      }
      forall k | exists f :: f in fields && f.key == k && IsTag(f, computed, eval)
        ensures k in EventTags(fields, computed, eval)
      {
        var f :| f in fields && f.key == k && IsTag(f, computed, eval);
        if f != last {
          assert f in init;
        }
      }
    }
  }
}
