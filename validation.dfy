/** The request-validation middleware: Joi's error details are grouped by their dotted path,
    and the first failing section (body, then params, then query) is thrown as a 400
    VALIDATION_FAILED. Joi itself is not modelled: each section's validation result is an input. */
module Validation {
  import opened Wrappers
  import Text
  import Json
  import ServiceErrors

  const DEFAULT_MESSAGE: string := "Validation failed"

  /** One step of a Joi error path: an object key or an array position. */
  datatype PathElem = Key(name: string) | Index(position: nat)

  /** One entry of a Joi error's `details`. */
  datatype Detail = Detail(message: string, path: seq<PathElem>, errorType: string)

  /** What a group keeps of a detail: its type and its message. */
  datatype Entry = Entry(errorType: string, message: string)

  /** One property of the cleaned-up errors object. */
  datatype Group = Group(key: string, entries: seq<Entry>)

  /** The cleaned-up errors object, its properties in creation order. */
  type Groups = seq<Group>

  // ---------------------------------------------------------------------------
  // cleanupJoiError
  // ---------------------------------------------------------------------------

  function PathText(e: PathElem): string {
    match e
    case Key(name) => name
    case Index(position) => Text.NatToString(position)
  }

  /** `path.join(".") || "value"` */
  function GroupKey(path: seq<PathElem>): (key: string)
    ensures key != ""
    ensures path == [] ==> key == "value"
  {
    var joined := Text.Join(seq(|path|, k requires 0 <= k < |path| => PathText(path[k])), '.');
    if joined == "" then "value" else joined
  }

  function KeyOf(d: Detail): string {
    GroupKey(d.path)
  }

  function EntryOf(d: Detail): Entry {
    Entry(d.errorType, d.message)
  }

  /** The position of the property named `key`, or -1. */
  function Find(groups: Groups, key: string): (i: int)
    ensures -1 <= i < |groups|
    ensures i >= 0 ==> groups[i].key == key && forall j :: 0 <= j < i ==> groups[j].key != key
    ensures i < 0 ==> forall j :: 0 <= j < |groups| ==> groups[j].key != key
    decreases |groups|
  {
    if groups == [] then -1
    else if groups[0].key == key then 0
    else
      var i := Find(groups[1..], key);
      if i < 0 then -1 else i + 1
  }

  /** One step of the reduce: create the property if missing, then push the entry. */
  function Insert(groups: Groups, key: string, e: Entry): Groups {
    var i := Find(groups, key);
    if i < 0 then groups + [Group(key, [e])]
    else groups[i := Group(key, groups[i].entries + [e])]
  }

  /** `details.reduce(..., {})`, a left fold of Insert. */
  function Grouped(details: seq<Detail>): Groups
    decreases |details|
  {
    if details == [] then []
    else
      var n := |details| - 1;
      Insert(Grouped(details[..n]), KeyOf(details[n]), EntryOf(details[n]))
  }

  /** The names every plain object inherits from `Object.prototype`. Reading one of them on
      the accumulator gives a function or an object, which is truthy but has no `push`. */
  const INHERITED: set<string> := {
    "constructor", "hasOwnProperty", "isPrototypeOf", "propertyIsEnumerable", "toLocaleString",
    "toString", "valueOf", "__proto__", "__defineGetter__", "__defineSetter__",
    "__lookupGetter__", "__lookupSetter__"}

  /** What `resultObj[key]` reads: an own group, a member inherited from the prototype, or
      undefined. */
  datatype Property = OwnGroup(at: nat) | InheritedMember | Missing

  function Lookup(groups: Groups, key: string): (p: Property)
    ensures p.OwnGroup? ==> p.at < |groups| && groups[p.at].key == key
    ensures p.OwnGroup? <==> Find(groups, key) >= 0
    ensures p.InheritedMember? <==> Find(groups, key) < 0 && key in INHERITED
  {
    var i := Find(groups, key);
    if i >= 0 then OwnGroup(i) else if key in INHERITED then InheritedMember else Missing
  }

  /** Some detail is keyed by an inherited name. */
  predicate HasInheritedKey(details: seq<Detail>) {
    exists i :: 0 <= i < |details| && KeyOf(details[i]) in INHERITED
  }

  /** `cleanupJoiError`: the accumulator object, filled one detail at a time. A missing
      property is created as `[]`; a property found on the prototype is left alone, and the
      following `push` is not a function there, so the reduce throws a TypeError (None). */
  method CleanupJoiError(details: seq<Detail>) returns (result: Option<Groups>)
    ensures result.None? <==> HasInheritedKey(details)
    ensures result.Some? ==> result.value == Grouped(details)
  {
    var groups: Groups := [];
    var i := 0;
    while i < |details|
      invariant 0 <= i <= |details|
      invariant groups == Grouped(details[..i])
      invariant !HasInheritedKey(details[..i])
    {
      var key := KeyOf(details[i]);
      ghost var before := groups;
      var e := EntryOf(details[i]);
      var property := Lookup(groups, key);
      if property.InheritedMember? {
        assert KeyOf(details[i]) in INHERITED;
        return None;
      }
      var at: nat;
      if property.Missing? {
        groups := groups + [Group(key, [])];
        at := |groups| - 1;
      } else {
        at := property.at;
      }
      ghost var created := groups;
      groups := groups[at := Group(key, groups[at].entries + [e])];
      if Find(before, key) < 0 {
        assert created[at].entries == [] && [] + [e] == [e];
        assert groups == before + [Group(key, [e])];
      } else {
        GroupedKeys(details[..i], key);
      }
      assert key !in INHERITED;
      assert groups == Insert(before, key, e);
      ghost var seen := details[..i + 1];
      assert seen[..i] == details[..i];
      forall j | 0 <= j < i + 1 ensures KeyOf(seen[j]) !in INHERITED {
        if j < i {
          assert seen[j] == details[..i][j];
        }
      }
      i := i + 1;
    }
    assert details[..i] == details;
    return Some(groups);
  }

  // ---------------------------------------------------------------------------
  // What the grouping promises
  // ---------------------------------------------------------------------------

  /** The entries of the property named `key`, or none. */
  function EntriesFor(groups: Groups, key: string): seq<Entry> {
    var i := Find(groups, key);
    if i < 0 then [] else groups[i].entries
  }

  /** Reference: the entries of the details whose key is `key`, in the details' order. */
  function EntriesWithKey(details: seq<Detail>, key: string): seq<Entry>
    decreases |details|
  {
    if details == [] then []
    else
      var n := |details| - 1;
      EntriesWithKey(details[..n], key) + (if KeyOf(details[n]) == key then [EntryOf(details[n])] else [])
  }

  predicate KeysDistinct(groups: Groups) {
    forall i, j :: 0 <= i < j < |groups| ==> groups[i].key != groups[j].key
  }

  function TotalEntries(groups: Groups): nat
    decreases |groups|
  {
    if groups == [] then 0 else |groups[0].entries| + TotalEntries(groups[1..])
  }

  lemma {:induction false} InsertEntries(groups: Groups, k: string, e: Entry, key: string)
    ensures EntriesFor(Insert(groups, k, e), key) == EntriesFor(groups, key) + (if k == key then [e] else [])
  {
    var i := Find(groups, k);
    var r := Insert(groups, k, e);
    if i < 0 {
      if k != key {
        FindAppend(groups, Group(k, [e]), key);
      } else {
        FindAppend(groups, Group(k, [e]), key);
      }
    } else {
      FindUpdate(groups, i, Group(k, groups[i].entries + [e]), key);
    }
  }

  lemma {:induction false} FindAppend(groups: Groups, g: Group, key: string)
    ensures Find(groups + [g], key) == if Find(groups, key) >= 0 then Find(groups, key)
                                       else if g.key == key then |groups| else -1
    decreases |groups|
  {
    if groups == [] {
      assert groups + [g] == [g];
    } else {
      assert (groups + [g])[1..] == groups[1..] + [g];
      FindAppend(groups[1..], g, key);
    }
  }

  lemma {:induction false} FindUpdate(groups: Groups, i: nat, g: Group, key: string)
    requires i < |groups| && g.key == groups[i].key
    ensures Find(groups[i := g], key) == Find(groups, key)
    decreases |groups|
  {
    if groups != [] && i > 0 {
      assert groups[i := g][1..] == groups[1..][i - 1 := g];
      FindUpdate(groups[1..], i - 1, g, key);
    }
  }

  /** Every detail lands in the group of its own key, in order, as (type, message): the
      entries under any key are exactly the details with that key. */
  lemma {:induction false} GroupedEntries(details: seq<Detail>, key: string)
    ensures EntriesFor(Grouped(details), key) == EntriesWithKey(details, key)
    decreases |details|
  {
    if details != [] {
      var n := |details| - 1;
      GroupedEntries(details[..n], key);
      InsertEntries(Grouped(details[..n]), KeyOf(details[n]), EntryOf(details[n]), key);
    }
  }

  /** No key appears twice, and every group holds at least one entry. */
  lemma {:induction false} GroupedWellFormed(details: seq<Detail>)
    ensures KeysDistinct(Grouped(details))
    ensures forall i :: 0 <= i < |Grouped(details)| ==> Grouped(details)[i].entries != []
    decreases |details|
  {
    if details != [] {
      var n := |details| - 1;
      GroupedWellFormed(details[..n]);
    }
  }

  /** A key is present exactly when some detail has that key. */
  lemma GroupedKeys(details: seq<Detail>, key: string)
    ensures Find(Grouped(details), key) >= 0 <==> exists i :: 0 <= i < |details| && KeyOf(details[i]) == key
  {
    GroupedEntries(details, key);
    GroupedWellFormed(details);
    EntriesWithKeyMembership(details, key);
  }

  lemma {:induction false} EntriesWithKeyMembership(details: seq<Detail>, key: string)
    ensures EntriesWithKey(details, key) != [] <==> exists i :: 0 <= i < |details| && KeyOf(details[i]) == key
    decreases |details|
  {
    if details != [] {
      var n := |details| - 1;
      EntriesWithKeyMembership(details[..n], key);
      if exists i :: 0 <= i < |details| && KeyOf(details[i]) == key {
        var i :| 0 <= i < |details| && KeyOf(details[i]) == key;
        if i < n {
          assert KeyOf(details[..n][i]) == key;
        }
      }
    }
  }

  lemma {:induction false} TotalUpdate(groups: Groups, i: nat, g: Group)
    requires i < |groups|
    ensures TotalEntries(groups[i := g]) == TotalEntries(groups) - |groups[i].entries| + |g.entries|
    decreases |groups|
  {
    if i > 0 {
      assert groups[i := g][1..] == groups[1..][i - 1 := g];
      TotalUpdate(groups[1..], i - 1, g);
    }
  }

  lemma {:induction false} TotalAppend(groups: Groups, g: Group)
    ensures TotalEntries(groups + [g]) == TotalEntries(groups) + |g.entries|
    decreases |groups|
  {
    if groups == [] {
      assert groups + [g] == [g];
    } else {
      assert (groups + [g])[1..] == groups[1..] + [g];
      TotalAppend(groups[1..], g);
    }
  }

  /** The groups hold as many entries as there were details. */
  lemma {:induction false} GroupedTotal(details: seq<Detail>)
    ensures TotalEntries(Grouped(details)) == |details|
    decreases |details|
  {
    if details != [] {
      var n := |details| - 1;
      var g := Grouped(details[..n]);
      GroupedTotal(details[..n]);
      var k := KeyOf(details[n]);
      var i := Find(g, k);
      if i < 0 {
        TotalAppend(g, Group(k, [EntryOf(details[n])]));
      } else {
        TotalUpdate(g, i, Group(k, g[i].entries + [EntryOf(details[n])]));
      }
    }
  }

  /** A detail with an empty path is grouped under "value". */
  lemma EmptyPathIsValue(details: seq<Detail>, i: nat)
    requires i < |details| && details[i].path == []
    ensures EntryOf(details[i]) in EntriesFor(Grouped(details), "value")
  {
    GroupedEntries(details, "value");
    EntriesWithKeyContains(details, i);
  }

  lemma {:induction false} EntriesWithKeyContains(details: seq<Detail>, i: nat)
    requires i < |details|
    ensures EntryOf(details[i]) in EntriesWithKey(details, KeyOf(details[i]))
    decreases |details|
  {
    var n := |details| - 1;
    if i < n {
      EntriesWithKeyContains(details[..n], i);
    }
  }

  // ---------------------------------------------------------------------------
  // Object.values(errors)[0]?.find(e => e.message)?.message || "Validation failed"
  // ---------------------------------------------------------------------------

  function KeyValue(k: string): nat
    requires Text.IsArrayIndex(k)
  {
    Text.DigitsValue(k)
  }

  /** The position of the array-index key with the least numeric value, if any. */
  function MinArrayIndex(groups: Groups): (r: Option<nat>)
    ensures r.Some? ==> r.value < |groups| && Text.IsArrayIndex(groups[r.value].key)
    ensures r.Some? ==> forall j :: 0 <= j < |groups| && Text.IsArrayIndex(groups[j].key) ==>
                          KeyValue(groups[r.value].key) <= KeyValue(groups[j].key)
    ensures r.None? ==> forall j :: 0 <= j < |groups| ==> !Text.IsArrayIndex(groups[j].key)
    decreases |groups|
  {
    if groups == [] then None
    else
      var rest := MinArrayIndex(groups[1..]);
      assert forall j :: 1 <= j < |groups| ==> groups[j] == groups[1..][j - 1];
      if !Text.IsArrayIndex(groups[0].key) then
        if rest.Some? then Some(rest.value + 1) else None
      else if rest.Some? && KeyValue(groups[rest.value + 1].key) < KeyValue(groups[0].key) then
        Some(rest.value + 1)
      else Some(0)
  }

  /** `Object.values(errors)[0]`: ordinary objects list array-index keys first, in ascending
      numeric order, then the other keys in creation order. */
  function FirstValue(groups: Groups): (r: Option<Group>)
    ensures r.None? <==> groups == []
    ensures r.Some? ==> r.value in groups
    ensures r.Some? && Text.IsArrayIndex(r.value.key) ==>
      forall j :: 0 <= j < |groups| && Text.IsArrayIndex(groups[j].key) ==> KeyValue(r.value.key) <= KeyValue(groups[j].key)
    ensures r.Some? && !Text.IsArrayIndex(r.value.key) ==>
      r.value == groups[0] && forall j :: 0 <= j < |groups| ==> !Text.IsArrayIndex(groups[j].key)
  {
    if groups == [] then None
    else
      match MinArrayIndex(groups)
      case Some(i) => Some(groups[i])
      case None => Some(groups[0])
  }

  /** `entries.find(e => e.message)`: the first entry with a non-empty message. */
  function FindMessage(entries: seq<Entry>): (r: Option<nat>)
    ensures r.Some? ==> r.value < |entries| && entries[r.value].message != ""
    ensures r.Some? ==> forall j :: 0 <= j < r.value ==> entries[j].message == ""
    ensures r.None? ==> forall j :: 0 <= j < |entries| ==> entries[j].message == ""
    decreases |entries|
  {
    if entries == [] then None
    else if entries[0].message != "" then Some(0)
    else
      var rest := FindMessage(entries[1..]);
      assert forall j :: 1 <= j < |entries| ==> entries[j] == entries[1..][j - 1];
      if rest.Some? then Some(rest.value + 1) else None
  }

  /** The thrown message: the first non-empty message of the first group, else the default. */
  function ErrorMessage(groups: Groups): (m: string)
    ensures m != ""
  {
    match FirstValue(groups)
    case None => DEFAULT_MESSAGE
    case Some(g) =>
      match FindMessage(g.entries)
      case None => DEFAULT_MESSAGE
      case Some(k) => g.entries[k].message
  }

  /** The errors object as a JSON value, passed as the error's details. */
  function ToDetails(groups: Groups): Json.Members {
    seq(|groups|, i requires 0 <= i < |groups| =>
      (groups[i].key, Json.Arr(seq(|groups[i].entries|, k requires 0 <= k < |groups[i].entries| =>
        Json.Obj([("type", Json.Str(groups[i].entries[k].errorType)),
                  ("message", Json.Str(groups[i].entries[k].message))])))))
  }

  // ---------------------------------------------------------------------------
  // validate(schema)
  // ---------------------------------------------------------------------------

  /** Which sections the route's schema describes. */
  datatype Schema = Schema(query: bool, body: bool, params: bool)

  /** `validate()` without a schema validates all three sections against empty schemas. */
  function Effective(schema: Option<Schema>): (s: Schema)
    ensures schema.None? ==> s.query && s.body && s.params
    ensures schema.Some? ==> s == schema.value
  {
    schema.GetOr(Schema(true, true, true))
  }

  /** Joi's answer for one section: the converted value, or the error details. */
  datatype Check = Valid(value: Json.Value) | Invalid(details: seq<Detail>)

  /** Joi's answers for query, body and params. */
  datatype Checks = Checks(query: Check, body: Check, params: Check)

  /** The `errors` object the middleware fills, section by section. */
  datatype Errors = Errors(query: Option<Groups>, body: Option<Groups>, params: Option<Groups>)

  function SectionErrors(validated: bool, c: Check): Option<Groups> {
    if validated && c.Invalid? then Some(Grouped(c.details)) else None
  }

  function ErrorsOf(s: Schema, checks: Checks): Errors {
    Errors(SectionErrors(s.query, checks.query), SectionErrors(s.body, checks.body),
           SectionErrors(s.params, checks.params))
  }

  predicate Fails(section: Option<Groups>) {
    section.Some? && |section.value| > 0
  }

  function Raise(groups: Groups): ServiceErrors.ServiceError {
    ServiceErrors.ValidationFailed(ErrorMessage(groups), Some(ToDetails(groups)))
  }

  /** The error thrown, if any: body errors first, then params, then query. */
  function Thrown(errors: Errors): Option<ServiceErrors.ServiceError> {
    if Fails(errors.body) then Some(Raise(errors.body.value))
    else if Fails(errors.params) then Some(Raise(errors.params.value))
    else if Fails(errors.query) then Some(Raise(errors.query.value))
    else None
  }

  /** A validated section whose details include an inherited key makes `cleanupJoiError`
      throw. */
  predicate Crashes(validated: bool, c: Check) {
    validated && c.Invalid? && HasInheritedKey(c.details)
  }

  /** How the middleware ends: `next()`, a thrown ServiceError, or the TypeError thrown by
      `cleanupJoiError`, which reaches the error handler as a plain error. */
  datatype Outcome = Next | Throw(error: ServiceErrors.ServiceError) | TypeError

  /** The outcome of the middleware: a TypeError as soon as a section's grouping throws
      (query, body and params are grouped in that order); otherwise the chosen section's error. */
  function OutcomeOf(s: Schema, checks: Checks): Outcome {
    if Crashes(s.query, checks.query) || Crashes(s.body, checks.body) || Crashes(s.params, checks.params) then
      TypeError
    else
      match Thrown(ErrorsOf(s, checks))
      case None => Next
      case Some(e) => Throw(e)
  }

  /** The request object the middleware reads and rewrites. */
  class Request {
    var query: Json.Value
    var body: Json.Value
    var params: Json.Value

    constructor (query: Json.Value, body: Json.Value, params: Json.Value)
      ensures this.query == query && this.body == body && this.params == params
    {
      this.query := query;
      this.body := body;
      this.params := params;
    }
  }

  /** The middleware built by `validate(schema)`. A section that passes has its value written
      back (body and params only: query is read-only), even when another section then throws;
      a TypeError while grouping stops the middleware before the later sections are looked at. */
  method Validate(schema: Option<Schema>, checks: Checks, req: Request) returns (outcome: Outcome)
    modifies req
    ensures outcome == OutcomeOf(Effective(schema), checks)
    ensures req.query == old(req.query)
    ensures req.body == if Effective(schema).body && checks.body.Valid? && !Crashes(Effective(schema).query, checks.query)
                        then checks.body.value else old(req.body)
    ensures req.params == if Effective(schema).params && checks.params.Valid?
                             && !Crashes(Effective(schema).query, checks.query)
                             && !Crashes(Effective(schema).body, checks.body)
                          then checks.params.value else old(req.params)
  {
    var s := Effective(schema);
    var errors := Errors(None, None, None);
    if s.query {
      if checks.query.Invalid? {
        var g := CleanupJoiError(checks.query.details);
        if g.None? {
          return TypeError;
        }
        errors := errors.(query := g);
      }
    }
    if s.body {
      if checks.body.Invalid? {
        var g := CleanupJoiError(checks.body.details);
        if g.None? {
          return TypeError;
        }
        errors := errors.(body := g);
      } else {
        req.body := checks.body.value;
      }
    }
    if s.params {
      if checks.params.Invalid? {
        var g := CleanupJoiError(checks.params.details);
        if g.None? {
          return TypeError;
        }
        errors := errors.(params := g);
      } else {
        req.params := checks.params.value;
      }
    }
    assert errors == ErrorsOf(s, checks);
    match Thrown(errors)
    case None => outcome := Next;
    case Some(e) => outcome := Throw(e);
  }

  // ---------------------------------------------------------------------------
  // What the middleware promises
  // ---------------------------------------------------------------------------

  lemma GroupedNonEmpty(details: seq<Detail>)
    ensures |Grouped(details)| > 0 <==> details != []
  {
    GroupedTotal(details);
    if details == [] {
      assert Grouped(details) == [];
    }
  }

  /** A section fails exactly when it is validated and Joi reported at least one detail. */
  lemma SectionFails(validated: bool, c: Check)
    ensures Fails(SectionErrors(validated, c)) <==> validated && c.Invalid? && c.details != []
  {
    if validated && c.Invalid? {
      GroupedNonEmpty(c.details);
    }
  }

  /** Failing body errors are thrown even when params or query fail too; params come before
      query; the thrown error is a 400 VALIDATION_FAILED carrying that section's groups. */
  lemma SectionPriority(s: Schema, checks: Checks)
    ensures var t := Thrown(ErrorsOf(s, checks));
      && (s.body && checks.body.Invalid? && checks.body.details != [] ==>
            t == Some(Raise(Grouped(checks.body.details))))
      && (!(s.body && checks.body.Invalid? && checks.body.details != []) &&
          s.params && checks.params.Invalid? && checks.params.details != [] ==>
            t == Some(Raise(Grouped(checks.params.details))))
      && (!(s.body && checks.body.Invalid? && checks.body.details != []) &&
          !(s.params && checks.params.Invalid? && checks.params.details != []) &&
          s.query && checks.query.Invalid? && checks.query.details != [] ==>
            t == Some(Raise(Grouped(checks.query.details))))
    ensures !Crashes(s.query, checks.query) && !Crashes(s.body, checks.body) && !Crashes(s.params, checks.params) ==>
      var o := OutcomeOf(s, checks);
      && (s.body && checks.body.Invalid? && checks.body.details != [] ==>
            o == Throw(Raise(Grouped(checks.body.details))))
      && (!(s.body && checks.body.Invalid? && checks.body.details != []) &&
          s.params && checks.params.Invalid? && checks.params.details != [] ==>
            o == Throw(Raise(Grouped(checks.params.details))))
      && (!(s.body && checks.body.Invalid? && checks.body.details != []) &&
          !(s.params && checks.params.Invalid? && checks.params.details != []) &&
          s.query && checks.query.Invalid? && checks.query.details != [] ==>
            o == Throw(Raise(Grouped(checks.query.details))))
  {
    SectionFails(s.body, checks.body);
    SectionFails(s.params, checks.params);
    SectionFails(s.query, checks.query);
  }

  /** Nothing is thrown, and `next()` runs, exactly when no validated section has a detail. */
  lemma PassesIffNoDetails(s: Schema, checks: Checks)
    ensures Thrown(ErrorsOf(s, checks)).None? <==>
      && !(s.body && checks.body.Invalid? && checks.body.details != [])
      && !(s.params && checks.params.Invalid? && checks.params.details != [])
      && !(s.query && checks.query.Invalid? && checks.query.details != [])
    ensures OutcomeOf(s, checks) == Next <==>
      && !(s.body && checks.body.Invalid? && checks.body.details != [])
      && !(s.params && checks.params.Invalid? && checks.params.details != [])
      && !(s.query && checks.query.Invalid? && checks.query.details != [])
  {
    SectionFails(s.body, checks.body);
    SectionFails(s.params, checks.params);
    SectionFails(s.query, checks.query);
  }

  /** The thrown error is a 400 VALIDATION_FAILED whose message is the first non-empty message
      of the first group, or "Validation failed" when that group has none. */
  lemma ThrownMessage(groups: Groups)
    requires groups != []
    ensures Raise(groups).statusCode == 400 && ServiceErrors.IsValidationFailed(Raise(groups))
    ensures Raise(groups).details == ToDetails(groups)
    ensures var g := FirstValue(groups).value;
      Raise(groups).message == if FindMessage(g.entries).None? then DEFAULT_MESSAGE
                               else g.entries[FindMessage(g.entries).value].message
  {
  }

  /** Without array-index keys the first group is the first one created. */
  lemma FirstValueCreationOrder(groups: Groups)
    requires groups != []
    requires forall j :: 0 <= j < |groups| ==> !Text.IsArrayIndex(groups[j].key)
    ensures FirstValue(groups) == Some(groups[0])
  {
  }

  /** A detail at array position n (a bulk body's element, say) is grouped under the key
      "n", an array-index key: its group is listed after the array-index keys of smaller
      value and before every key that is not an array index, whenever it was created. */
  lemma IndexPathKey(n: nat)
    requires n < 0xFFFF_FFFF
    ensures GroupKey([Index(n)]) == Text.NatToString(n)
    ensures Text.IsArrayIndex(GroupKey([Index(n)]))
  {
    Text.ArrayIndexOfNat(n);
    assert seq(1, k requires 0 <= k < 1 => PathText([Index(n)][k])) == [Text.NatToString(n)];
  }

  /** A body field named after a prototype member (a field "constructor" that Joi rejects,
      say) makes the middleware throw a TypeError rather than a validation error, whatever
      the other sections hold. */
  lemma InheritedFieldCrashes(name: string, s: Schema, checks: Checks)
    requires name in INHERITED
    requires s.body && checks.body.Invalid? && checks.body.details != []
    requires checks.body.details[0].path == [Key(name)]
    ensures OutcomeOf(s, checks) == TypeError
  {
    assert seq(1, k requires 0 <= k < 1 => PathText([Key(name)][k])) == [name];
    assert KeyOf(checks.body.details[0]) == name;
  }
}
