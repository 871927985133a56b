/** The idempotent migration wrappers of backend/alembic_helpers.py.

    The underlying operations fail on a name that exists or a table that does not; the
    wrappers look first and skip what is already there.  Tables and indexes share one
    namespace in PostgreSQL. */
module Migrations {

  datatype Table = Table(columns: set<string>, indexes: set<string>)

  type Schema = map<string, Table>

  datatype Operation =
    | AddColumn(table: string, column: string)
    | CreateTable(table: string, columns: set<string>)
    | CreateIndex(index: string, table: string, columns: set<string>)

  function RelationNames(s: Schema): set<string> {
    s.Keys + set t, i | t in s && i in s[t].indexes :: i
  }

  function ColumnNames(s: Schema, table: string): set<string> {
    if table in s then s[table].columns else {}
  }

  function IndexNames(s: Schema, table: string): set<string> {
    if table in s then s[table].indexes else {}
  }

  /** What the database accepts. */
  predicate Accepts(s: Schema, op: Operation) {
    match op
    case AddColumn(t, c) => t in s && c !in s[t].columns
    case CreateTable(t, _) => t !in RelationNames(s)
    case CreateIndex(i, t, cs) => t in s && cs <= s[t].columns && i !in RelationNames(s)
  }

  function Apply(s: Schema, op: Operation): Schema
    requires Accepts(s, op)
  {
    match op
    case AddColumn(t, c) => s[t := s[t].(columns := s[t].columns + {c})]
    case CreateTable(t, cs) => s[t := Table(cs, {})]
    case CreateIndex(i, t, _) => s[t := s[t].(indexes := s[t].indexes + {i})]
  }

  /** The check each wrapper makes first. */
  predicate Present(s: Schema, op: Operation) {
    match op
    case AddColumn(t, c) => c in ColumnNames(s, t)
    case CreateTable(t, _) => t in s
    case CreateIndex(i, t, _) => i in IndexNames(s, t)
  }

  datatype Result = Failed | Skipped | Applied

  function SafeStep(s: Schema, op: Operation): (Schema, Result) {
    if Present(s, op) then (s, Skipped)
    else if Accepts(s, op) then (Apply(s, op), Applied)
    else (s, Failed)
  }

  /** The schema a script leaves behind and how many of its operations completed. */
  datatype Outcome = Outcome(schema: Schema, completed: nat)

  function Upgrade(s: Schema, ops: seq<Operation>): (o: Outcome)
    ensures o.completed <= |ops|
    decreases |ops|
  {
    if ops == [] then Outcome(s, 0)
    else
      var (s', r) := SafeStep(s, ops[0]);
      if r.Failed? then Outcome(s, 0)
      else var o := Upgrade(s', ops[1..]); Outcome(o.schema, 1 + o.completed)
  }

  predicate Completes(s: Schema, ops: seq<Operation>) {
    Upgrade(s, ops).completed == |ops|
  }

  datatype Thing = TableOf(table: string) | ColumnOf(table: string, column: string) | IndexOf(table: string, index: string)

  predicate Has(s: Schema, x: Thing) {
    x.table in s && match x
      case TableOf(_) => true
      case ColumnOf(t, c) => c in s[t].columns
      case IndexOf(t, i) => i in s[t].indexes
  }

  predicate Makes(op: Operation, x: Thing) {
    match op
    case AddColumn(t, c) => x == ColumnOf(t, c)
    case CreateTable(t, cs) => x == TableOf(t) || (x.ColumnOf? && x.table == t && x.column in cs)
    case CreateIndex(i, t, _) => x == IndexOf(t, i)
  }

  /** The object an operation is about. */
  function Named(op: Operation): Thing {
    match op
    case AddColumn(t, c) => ColumnOf(t, c)
    case CreateTable(t, _) => TableOf(t)
    case CreateIndex(i, t, _) => IndexOf(t, i)
  }

  /** No table and no index of any table has this name. */
  ghost predicate NameFree(s: Schema, name: string) {
    !Has(s, TableOf(name)) && forall t :: !Has(s, IndexOf(t, name))
  }

  /** What the database needs for an operation whose object is missing. */
  ghost predicate Possible(s: Schema, op: Operation) {
    match op
    case AddColumn(t, _) => Has(s, TableOf(t))
    case CreateTable(t, _) => NameFree(s, t)
    case CreateIndex(i, t, cs) => Has(s, TableOf(t)) && NameFree(s, i) && forall c <- cs :: Has(s, ColumnOf(t, c))
  }

  /** What a wrapper does: it skips if and only if the object is there, applies the operation if
      and only if the object is missing and the database allows it, and otherwise fails; only
      an applied operation changes the schema, and then exactly by what it makes. */
  lemma StepMeans(s: Schema, op: Operation)
    ensures var (s', r) := SafeStep(s, op);
            && (r.Skipped? <==> Has(s, Named(op)))
            && (r.Applied? <==> !Has(s, Named(op)) && Possible(s, op))
            && (!r.Applied? ==> s' == s)
            && (r.Applied? ==> forall x :: Has(s', x) <==> Has(s, x) || Makes(op, x))
  {
    NamesMean(s);
    if SafeStep(s, op).1.Applied? {
      forall x ensures Has(SafeStep(s, op).0, x) <==> Has(s, x) || Makes(op, x) {
        StepAddsOnly(s, op, x);
      }
    }
  }

  lemma NamesMean(s: Schema)
    ensures forall name :: name in RelationNames(s) <==> !NameFree(s, name)
  {
    forall name ensures name in RelationNames(s) <==> !NameFree(s, name) {
      if name in RelationNames(s) && name !in s {
        var t :| t in s && name in s[t].indexes;
        assert Has(s, IndexOf(t, name));
      }
      if !NameFree(s, name) && name !in s {
        var t :| Has(s, IndexOf(t, name));
        assert name in s[t].indexes;
      }
    }
  }

  lemma PresentMeans(s: Schema, op: Operation)
    ensures Present(s, op) <==> Has(s, Named(op))
  {}

  // ----- Objects never disappear -------------------------------------------------------------

  lemma StepKeeps(s: Schema, op: Operation, other: Operation)
    ensures Present(s, other) ==> Present(SafeStep(s, op).0, other)
    ensures !SafeStep(s, op).1.Failed? ==> Present(SafeStep(s, op).0, op)
  {}

  lemma {:induction false} UpgradeKeeps(s: Schema, ops: seq<Operation>, other: Operation)
    requires Present(s, other)
    ensures Present(Upgrade(s, ops).schema, other)
    decreases |ops|
  {
    if ops != [] {
      StepKeeps(s, ops[0], other);
      UpgradeKeeps(SafeStep(s, ops[0]).0, ops[1..], other);
    }
  }

  /** A completed script leaves every object it names in place. */
  lemma {:induction false} UpgradeAchieves(s: Schema, ops: seq<Operation>, i: nat)
    requires i < Upgrade(s, ops).completed
    ensures Present(Upgrade(s, ops).schema, ops[i])
    ensures Has(Upgrade(s, ops).schema, Named(ops[i]))
    decreases |ops|
  {
    var s' := SafeStep(s, ops[0]).0;
    StepKeeps(s, ops[0], ops[0]);
    if i == 0 {
      UpgradeKeeps(s', ops[1..], ops[0]);
    } else {
      UpgradeAchieves(s', ops[1..], i - 1);
    }
  }

  lemma StepAddsOnly(s: Schema, op: Operation, x: Thing)
    ensures Has(SafeStep(s, op).0, x) <==> Has(s, x) || (SafeStep(s, op).1.Applied? && Makes(op, x))
  {}

  /** A script removes nothing, and what it adds one of its completed operations makes. */
  lemma {:induction false} UpgradeAddsOnly(s: Schema, ops: seq<Operation>, x: Thing)
    ensures Has(s, x) ==> Has(Upgrade(s, ops).schema, x)
    ensures Has(Upgrade(s, ops).schema, x) ==>
              Has(s, x) || exists i :: 0 <= i < Upgrade(s, ops).completed && Makes(ops[i], x)
    decreases |ops|
  {
    if ops != [] && !SafeStep(s, ops[0]).1.Failed? {
      StepAddsOnly(s, ops[0], x);
      var s', rest := SafeStep(s, ops[0]).0, ops[1..];
      UpgradeAddsOnly(s', rest, x);
      if Has(Upgrade(s, ops).schema, x) && !Has(s', x) {
        var i :| 0 <= i < Upgrade(s', rest).completed && Makes(rest[i], x);
        assert ops[i + 1] == rest[i];
      }
    }
  }

  /** A baseline that already holds every named object is left unchanged. */
  lemma {:induction false} BaselineUntouched(s: Schema, ops: seq<Operation>)
    requires forall op <- ops :: Has(s, Named(op))
    ensures Upgrade(s, ops) == Outcome(s, |ops|)
  {
    if ops != [] {
      PresentMeans(s, ops[0]);
      BaselineUntouched(s, ops[1..]);
    }
  }

  /** A script that completed is a no-op when run again. */
  lemma RunAgain(s: Schema, ops: seq<Operation>)
    requires Completes(s, ops)
    ensures var done := Upgrade(s, ops).schema;
            Upgrade(done, ops) == Outcome(done, |ops|)
  {
    forall op <- ops ensures Has(Upgrade(s, ops).schema, Named(op)) {
      var i :| 0 <= i < |ops| && ops[i] == op;
      UpgradeAchieves(s, ops, i);
    }
    BaselineUntouched(Upgrade(s, ops).schema, ops);
  }

  // ----- Interrupted runs --------------------------------------------------------------------------

  lemma {:induction false} UpgradeConcat(s: Schema, a: seq<Operation>, b: seq<Operation>)
    requires Completes(s, a)
    ensures var o := Upgrade(Upgrade(s, a).schema, b);
            Upgrade(s, a + b) == Outcome(o.schema, |a| + o.completed)
    decreases |a|
  {
    if a == [] {
      assert a + b == b;
    } else {
      assert (a + b)[1..] == a[1..] + b;
      UpgradeConcat(SafeStep(s, a[0]).0, a[1..], b);
    }
  }

  /** Stopping after k operations leaves what the completed ones among them did. */
  lemma {:induction false} StoppedAfter(s: Schema, ops: seq<Operation>, k: nat)
    requires k <= |ops|
    ensures var c := if k <= Upgrade(s, ops).completed then k else Upgrade(s, ops).completed;
            Completes(s, ops[..c]) && Upgrade(s, ops[..k]).schema == Upgrade(s, ops[..c]).schema
    decreases |ops|
  {
    if k > 0 && !SafeStep(s, ops[0]).1.Failed? {
      assert ops[..k][1..] == ops[1..][..k - 1];
      StoppedAfter(SafeStep(s, ops[0]).0, ops[1..], k - 1);
      var c := if k <= Upgrade(s, ops).completed then k else Upgrade(s, ops).completed;
      assert ops[..c][1..] == ops[1..][..c - 1];
    }
  }

  /** Stopping after any completed prefix and running the whole script again gives exactly the
      outcome of one uninterrupted run, failures included. */
  lemma ResumeEqualsOneRun(s: Schema, ops: seq<Operation>, k: nat)
    requires k <= |ops| && Completes(s, ops[..k])
    ensures Upgrade(Upgrade(s, ops[..k]).schema, ops) == Upgrade(s, ops)
  {
    var mid := Upgrade(s, ops[..k]).schema;
    assert ops == ops[..k] + ops[k..];
    UpgradeConcat(s, ops[..k], ops[k..]);
    RunAgain(s, ops[..k]);
    UpgradeConcat(mid, ops[..k], ops[k..]);
  }

  /** The schema after a series of runs, the i-th of them stopped after stops[i] operations. */
  function AfterStops(s: Schema, ops: seq<Operation>, stops: seq<nat>): Schema
    decreases |stops|
  {
    if stops == [] then s
    else
      var k := if stops[0] <= |ops| then stops[0] else |ops|;
      AfterStops(Upgrade(s, ops[..k]).schema, ops, stops[1..])
  }

  /** However often and wherever a script is interrupted, the next full run ends as one
      uninterrupted run from the start would have: same schema, same failing operation if any. */
  lemma {:induction false} AnyInterruptions(s: Schema, ops: seq<Operation>, stops: seq<nat>)
    ensures Upgrade(AfterStops(s, ops, stops), ops) == Upgrade(s, ops)
    decreases |stops|
  {
    if stops != [] {
      var k := if stops[0] <= |ops| then stops[0] else |ops|;
      StoppedAfter(s, ops, k);
      ResumeEqualsOneRun(s, ops, if k <= Upgrade(s, ops).completed then k else Upgrade(s, ops).completed);
      AnyInterruptions(Upgrade(s, ops[..k]).schema, ops, stops[1..]);
    }
  }

  // ----- The live database ----------------------------------------------------------------------------

  class Database {
    var schema: Schema

    constructor (schema: Schema)
      ensures this.schema == schema
    {
      this.schema := schema;
    }

    /** The unguarded operation: an error leaves the schema as it was. */
    method Execute(op: Operation) returns (ok: bool)
      modifies this
      ensures ok == Accepts(old(schema), op)
      ensures schema == if ok then Apply(old(schema), op) else old(schema)
    {
      ok := Accepts(schema, op);
      if ok {
        schema := Apply(schema, op);
      }
    }

    method SafeAddColumn(table: string, column: string) returns (r: Result)
      modifies this
      ensures (schema, r) == SafeStep(old(schema), AddColumn(table, column))
      ensures r.Skipped? <==> Has(old(schema), ColumnOf(table, column))
      ensures r.Applied? <==> !Has(old(schema), ColumnOf(table, column)) && Possible(old(schema), AddColumn(table, column))
      ensures r.Failed? || Has(schema, ColumnOf(table, column))
    {
      StepMeans(schema, AddColumn(table, column));
      if column in ColumnNames(schema, table) {
        return Skipped;
      }
      var ok := Execute(AddColumn(table, column));
      r := if ok then Applied else Failed;
    }

    method SafeCreateTable(table: string, columns: set<string>) returns (r: Result)
      modifies this
      ensures (schema, r) == SafeStep(old(schema), CreateTable(table, columns))
      ensures r.Skipped? <==> Has(old(schema), TableOf(table))
      ensures r.Applied? <==> !Has(old(schema), TableOf(table)) && Possible(old(schema), CreateTable(table, columns))
      ensures r.Failed? || Has(schema, TableOf(table))
    {
      StepMeans(schema, CreateTable(table, columns));
      if table in schema {
        return Skipped;
      }
      var ok := Execute(CreateTable(table, columns));
      r := if ok then Applied else Failed;
    }

    method SafeCreateIndex(index: string, table: string, columns: set<string>) returns (r: Result)
      modifies this
      ensures (schema, r) == SafeStep(old(schema), CreateIndex(index, table, columns))
      ensures r.Skipped? <==> Has(old(schema), IndexOf(table, index))
      ensures r.Applied? <==> !Has(old(schema), IndexOf(table, index)) && Possible(old(schema), CreateIndex(index, table, columns))
      ensures r.Failed? || Has(schema, IndexOf(table, index))
    {
      StepMeans(schema, CreateIndex(index, table, columns));
      if index in IndexNames(schema, table) {
        return Skipped;
      }
      var ok := Execute(CreateIndex(index, table, columns));
      r := if ok then Applied else Failed;
    }
  }
}
