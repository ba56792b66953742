/**
 The record filter as SQL (store.go:178-233): `List` grows a WHERE clause with numbered placeholders
 and the arguments for them.  ILIKE and the lower-casing of a status are parameters.
 */
module QueryCompiler {
  import opened Common

  /** The columns of a stored record that a filter can speak about; only `userId` may be NULL. */
  datatype Row = Row(
    id: nat,
    receivedAt: int,
    requestId: string,
    userId: Option<int>,
    username: string,
    email: string,
    promptText: string,
    reviewStatus: string)

  datatype Filter = Filter(
    userId: Option<int>,
    requestId: string,
    query: string,
    reviewStatus: string,
    from: Option<int>,
    to: Option<int>,
    limit: int,
    offset: int)

  /** The two text operations of the environment. */
  datatype TextOps = TextOps(ilike: (string, string) -> bool, lower: string -> string)

  // ------------------------------------------------------------------ the SQL

  datatype Value = Null | IntValue(n: int) | TextValue(t: string)

  datatype Column = UserId | RequestId | PromptText | Email | Username | ReceivedAt | ReviewStatus

  datatype Operator = Equal | ILike | AtLeast | Below

  /** `column operator $placeholder` */
  datatype Atom = Atom(column: Column, op: Operator, placeholder: nat)

  /** `1=1`, or atoms joined by OR. */
  datatype Clause = Always | AnyOf(atoms: seq<Atom>)

  datatype Tri = True | False | Unknown

  function Cell(row: Row, c: Column): Value {
    match c
    case UserId => if row.userId.Some? then IntValue(row.userId.value) else Null
    case RequestId => TextValue(row.requestId)
    case PromptText => TextValue(row.promptText)
    case Email => TextValue(row.email)
    case Username => TextValue(row.username)
    case ReceivedAt => IntValue(row.receivedAt)
    case ReviewStatus => TextValue(row.reviewStatus)
  }

  function Truth(b: bool): Tri { if b then True else False }

  /** A comparison with NULL, or of values the operator does not apply to, is unknown. */
  function Compare(op: Operator, x: Value, y: Value, ops: TextOps): Tri {
    match (op, x, y)
    case (Equal, IntValue(a), IntValue(b)) => Truth(a == b)
    case (Equal, TextValue(a), TextValue(b)) => Truth(a == b)
    case (ILike, TextValue(a), TextValue(b)) => Truth(ops.ilike(a, b))
    case (AtLeast, IntValue(a), IntValue(b)) => Truth(a >= b)
    case (Below, IntValue(a), IntValue(b)) => Truth(a < b)
    case _ => Unknown
  }

  predicate InRange(a: Atom, n: nat) { 1 <= a.placeholder <= n }

  function EvalAtom(a: Atom, args: seq<Value>, row: Row, ops: TextOps): Tri
    requires InRange(a, |args|)
  {
    Compare(a.op, Cell(row, a.column), args[a.placeholder - 1], ops)
  }

  function Or(x: Tri, y: Tri): Tri {
    if x.True? || y.True? then True else if x.Unknown? || y.Unknown? then Unknown else False
  }

  function And(x: Tri, y: Tri): Tri {
    if x.False? || y.False? then False else if x.Unknown? || y.Unknown? then Unknown else True
  }

  predicate ClauseInRange(c: Clause, n: nat) {
    c.AnyOf? ==> forall i :: 0 <= i < |c.atoms| ==> InRange(c.atoms[i], n)
  }

  function EvalAtoms(atoms: seq<Atom>, args: seq<Value>, row: Row, ops: TextOps): Tri
    requires forall i :: 0 <= i < |atoms| ==> InRange(atoms[i], |args|)
  {
    if atoms == [] then False else Or(EvalAtom(atoms[0], args, row, ops), EvalAtoms(atoms[1..], args, row, ops))
  }

  function EvalClause(c: Clause, args: seq<Value>, row: Row, ops: TextOps): Tri
    requires ClauseInRange(c, |args|)
  {
    if c.Always? then True else EvalAtoms(c.atoms, args, row, ops)
  }

  predicate AllInRange(where: seq<Clause>, n: nat) {
    forall i :: 0 <= i < |where| ==> ClauseInRange(where[i], n)
  }

  /** Clauses joined by AND. */
  function EvalWhere(where: seq<Clause>, args: seq<Value>, row: Row, ops: TextOps): Tri
    requires AllInRange(where, |args|)
  {
    if where == [] then True
    else
      And(EvalWhere(where[..|where| - 1], args, row, ops), EvalClause(where[|where| - 1], args, row, ops))
  }

  /** SQL keeps the rows for which the condition is true, not those for which it is unknown. */
  predicate Selects(where: seq<Clause>, args: seq<Value>, row: Row, ops: TextOps)
    requires AllInRange(where, |args|)
  {
    EvalWhere(where, args, row, ops).True?
  }

  // ------------------------------------------------------- meaning of a filter

  /** What the caller asked for, said without SQL. */
  predicate Matches(f: Filter, row: Row, ops: TextOps) {
    && (f.userId.Some? ==> row.userId == f.userId)
    && (f.requestId != "" ==> row.requestId == f.requestId)
    && (f.query != "" ==>
          var pattern := "%" + f.query + "%";
          ops.ilike(row.promptText, pattern) || ops.ilike(row.email, pattern) || ops.ilike(row.username, pattern))
    && (f.from.Some? ==> f.from.value <= row.receivedAt)
    && (f.to.Some? ==> row.receivedAt < f.to.value)
    && (f.reviewStatus != "" ==> row.reviewStatus == ops.lower(f.reviewStatus))
  }

  // --------------------------------------------------------------- the builder

  predicate Uses(c: Clause, p: nat) {
    c.AnyOf? && exists i :: 0 <= i < |c.atoms| && c.atoms[i].placeholder == p
  }

  predicate Referenced(where: seq<Clause>, p: nat) {
    exists k :: 0 <= k < |where| && Uses(where[k], p)
  }

  /** Every placeholder has an argument and every argument a placeholder. */
  predicate Numbered(where: seq<Clause>, args: seq<Value>) {
    AllInRange(where, |args|) && forall p :: 1 <= p <= |args| ==> Referenced(where, p)
  }

  lemma {:induction false} AtomsIgnoreMoreArgs(atoms: seq<Atom>, args: seq<Value>, more: seq<Value>, row: Row,
                                               ops: TextOps)
    requires forall i :: 0 <= i < |atoms| ==> InRange(atoms[i], |args|)
    ensures forall i :: 0 <= i < |atoms| ==> InRange(atoms[i], |args + more|)
    ensures EvalAtoms(atoms, args + more, row, ops) == EvalAtoms(atoms, args, row, ops)
  {
    if atoms != [] {
      AtomsIgnoreMoreArgs(atoms[1..], args, more, row, ops);
      assert InRange(atoms[0], |args|);
      assert (args + more)[atoms[0].placeholder - 1] == args[atoms[0].placeholder - 1];
    }
  }

  /** Appending arguments does not change what the clauses before them mean. */
  lemma {:induction false} WhereIgnoresMoreArgs(where: seq<Clause>, args: seq<Value>, more: seq<Value>, row: Row,
                                                ops: TextOps)
    requires AllInRange(where, |args|)
    ensures AllInRange(where, |args + more|)
    ensures EvalWhere(where, args + more, row, ops) == EvalWhere(where, args, row, ops)
  {
    if where != [] {
      WhereIgnoresMoreArgs(where[..|where| - 1], args, more, row, ops);
      var last := where[|where| - 1];
      assert ClauseInRange(last, |args|);
      if last.AnyOf? { AtomsIgnoreMoreArgs(last.atoms, args, more, row, ops); }
    }
  }

  /** A clause whose atoms all carry the number of the argument appended with it. */
  predicate Own(c: Clause, n: nat) {
    c.AnyOf? && c.atoms != [] && forall i :: 0 <= i < |c.atoms| ==> c.atoms[i].placeholder == n
  }

  lemma AddedNumbered(where: seq<Clause>, args: seq<Value>, c: Clause, v: Value)
    requires Numbered(where, args) && Own(c, |args| + 1)
    ensures Numbered(where + [c], args + [v])
  {
    var w := where + [c];
    assert forall i :: 0 <= i < |where| ==> w[i] == where[i] && ClauseInRange(where[i], |args|);
    assert Uses(w[|where|], |args| + 1) by { assert c.atoms[0].placeholder == |args| + 1; }
    forall p | 1 <= p <= |args| + 1
      ensures Referenced(w, p)
    {
      if p <= |args| {
        assert Referenced(where, p);
        var k :| 0 <= k < |where| && Uses(where[k], p);
        assert Uses(w[k], p);
      }
    }
  }

  /** The meaning of one more clause with one more argument, which is its own. */
  lemma AddedMeaning(where: seq<Clause>, args: seq<Value>, c: Clause, v: Value, row: Row, ops: TextOps)
    requires Numbered(where, args) && Own(c, |args| + 1)
    ensures Numbered(where + [c], args + [v])
    ensures Selects(where + [c], args + [v], row, ops)
       <==> Selects(where, args, row, ops) && EvalClause(c, args + [v], row, ops).True?
  {
    AddedNumbered(where, args, c, v);
    WhereIgnoresMoreArgs(where, args, [v], row, ops);
    var w := where + [c];
    assert w[..|w| - 1] == where && w[|w| - 1] == c;
  }

  lemma OneAtom(a: Atom, args: seq<Value>, row: Row, ops: TextOps)
    requires InRange(a, |args|)
    ensures EvalClause(AnyOf([a]), args, row, ops) == EvalAtom(a, args, row, ops)
  {
    assert [a][1..] == [];
    assert EvalAtoms([], args, row, ops) == False;
    assert EvalAtoms([a], args, row, ops) == Or(EvalAtom(a, args, row, ops), False);
  }

  /** Three atoms on one placeholder, as the free-text search uses. */
  function AnyText(p: nat): Clause {
    AnyOf([Atom(PromptText, ILike, p), Atom(Email, ILike, p), Atom(Username, ILike, p)])
  }

  lemma ThreeAtoms(p: nat, args: seq<Value>, row: Row, ops: TextOps)
    requires 1 <= p <= |args| && args[p - 1].TextValue?
    ensures var pattern := args[p - 1].t;
      var found :=
        ops.ilike(row.promptText, pattern) || ops.ilike(row.email, pattern) || ops.ilike(row.username, pattern);
      EvalClause(AnyText(p), args, row, ops).True? <==> found
  {
    var a, b, c := Atom(PromptText, ILike, p), Atom(Email, ILike, p), Atom(Username, ILike, p);
    OneAtom(c, args, row, ops);
    assert [b, c][1..] == [c] && [a, b, c][1..] == [b, c];
    assert EvalAtoms([b, c], args, row, ops) == Or(EvalAtom(b, args, row, ops), EvalAtoms([c], args, row, ops));
    assert EvalAtoms([a, b, c], args, row, ops) == Or(EvalAtom(a, args, row, ops), EvalAtoms([b, c], args, row, ops));
  }

  /** The part of a filter that the first `n` tests of `List` have dealt with. */
  function Partial(f: Filter, n: nat): Filter {
    Filter(
      if n >= 1 then f.userId else None,
      if n >= 2 then f.requestId else "",
      if n >= 3 then f.query else "",
      if n >= 6 then f.reviewStatus else "",
      if n >= 4 then f.from else None,
      if n >= 5 then f.to else None,
      f.limit,
      f.offset)
  }

  class Builder {
    var where: seq<Clause>
    var args: seq<Value>

    ghost predicate Says(f: Filter, ops: TextOps)
      reads this
    {
      Numbered(where, args) && forall row :: Selects(where, args, row, ops) <==> Matches(f, row, ops)
    }

    constructor (ghost f: Filter, ghost ops: TextOps)
      ensures Says(Partial(f, 0), ops) && |args| == 0
    {
      where, args := [Always], [];
      new;
      forall row
        ensures Selects(where, args, row, ops)
      {
        assert where[..0] == [];
        assert EvalWhere([], args, row, ops).True?;
      }
    }

    /** The closure `add`: one argument, one clause with its number. */
    method Add(column: Column, op: Operator, value: Value, ghost before: Filter, ghost after: Filter,
               ghost ops: TextOps)
      requires Says(before, ops)
      requires forall row ::
        (Matches(after, row, ops) <==> (Matches(before, row, ops) && Compare(op, Cell(row, column), value, ops).True?))
      modifies this
      ensures Says(after, ops)
    {
      ghost var w, a := where, args;
      args := args + [value];
      var clause := AnyOf([Atom(column, op, |args|)]);
      where := where + [clause];
      AddedNumbered(w, a, clause, value);
      forall row
        ensures Selects(where, args, row, ops) <==> Matches(after, row, ops)
      {
        AddedMeaning(w, a, clause, value, row, ops);
        OneAtom(clause.atoms[0], args, row, ops);
      }
    }

    method AddIdentifiers(f: Filter, ghost ops: TextOps)
      requires Says(Partial(f, 0), ops)
      modifies this
      ensures Says(Partial(f, 2), ops)
    {
      if f.userId.Some? {
        Add(UserId, Equal, IntValue(f.userId.value), Partial(f, 0), Partial(f, 1), ops);
      } else {
        assert Partial(f, 0) == Partial(f, 1);
      }
      if f.requestId != "" {
        Add(RequestId, Equal, TextValue(f.requestId), Partial(f, 1), Partial(f, 2), ops);
      } else {
        assert Partial(f, 1) == Partial(f, 2);
      }
    }

    method AddTimes(f: Filter, ghost ops: TextOps)
      requires Says(Partial(f, 3), ops)
      modifies this
      ensures Says(Partial(f, 5), ops)
    {
      if f.from.Some? {
        Add(ReceivedAt, AtLeast, IntValue(f.from.value), Partial(f, 3), Partial(f, 4), ops);
      } else {
        assert Partial(f, 3) == Partial(f, 4);
      }
      if f.to.Some? {
        Add(ReceivedAt, Below, IntValue(f.to.value), Partial(f, 4), Partial(f, 5), ops);
      } else {
        assert Partial(f, 4) == Partial(f, 5);
      }
    }

    method AddStatus(f: Filter, ops: TextOps)
      requires Says(Partial(f, 5), ops)
      modifies this
      ensures Says(Partial(f, 6), ops)
    {
      if f.reviewStatus != "" {
        Add(ReviewStatus, Equal, TextValue(ops.lower(f.reviewStatus)), Partial(f, 5), Partial(f, 6), ops);
      } else {
        assert Partial(f, 5) == Partial(f, 6);
      }
    }

    method AddSearch(query: string, ghost before: Filter, ghost after: Filter, ghost ops: TextOps)
      requires Says(before, ops) && after == before.(query := query) && before.query == "" && query != ""
      modifies this
      ensures Says(after, ops)
    {
      ghost var w, a := where, args;
      var placeholder := |args| + 1;
      args := args + [TextValue("%" + query + "%")];
      where := where + [AnyText(placeholder)];
      AddedNumbered(w, a, AnyText(placeholder), args[|args| - 1]);
      forall row
        ensures Selects(where, args, row, ops) <==> Matches(after, row, ops)
      {
        AddedMeaning(w, a, AnyText(placeholder), args[|args| - 1], row, ops);
        ThreeAtoms(placeholder, args, row, ops);
      }
    }
  }

  /**
   Compilation preserves meaning: for every filter, the WHERE clause under its arguments selects exactly
   the rows that match, for every row; placeholders and arguments are in one-to-one use; and LIMIT and
   OFFSET are bound to the last two arguments, which the clause does not touch.
   */
  method Compile(f: Filter, ops: TextOps)
    returns (where: seq<Clause>, args: seq<Value>, limitPlaceholder: nat, offsetPlaceholder: nat, allArgs: seq<Value>)
    ensures Numbered(where, args)
    ensures forall row :: Selects(where, args, row, ops) <==> Matches(f, row, ops)
    ensures AllInRange(where, |allArgs|) && forall row :: Selects(where, allArgs, row, ops) <==> Matches(f, row, ops)
    ensures |allArgs| == |args| + 2 && limitPlaceholder == |allArgs| - 1 && offsetPlaceholder == |allArgs|
    ensures allArgs[limitPlaceholder - 1] == IntValue(if 1 <= f.limit <= 200 then f.limit else 50)
    ensures allArgs[offsetPlaceholder - 1] == IntValue(Min(Max(f.offset, 0), 1_000_000))
    ensures forall i :: 0 <= i < |where| ==> !Uses(where[i], limitPlaceholder) && !Uses(where[i], offsetPlaceholder)
  {
    var b := new Builder(f, ops);
    b.AddIdentifiers(f, ops);
    if f.query != "" {
      b.AddSearch(f.query, Partial(f, 2), Partial(f, 3), ops);
    } else {
      assert Partial(f, 2) == Partial(f, 3);
    }
    b.AddTimes(f, ops);
    b.AddStatus(f, ops);
    assert Partial(f, 6) == f;
    assert b.Says(f, ops);
    where, args := b.where, b.args;
    limitPlaceholder, offsetPlaceholder := |args| + 1, |args| + 2;
    var bounds := [IntValue(PageLimit(f.limit)), IntValue(PageOffset(f.offset))];
    allArgs := args + bounds;
    assert AllInRange(where, |allArgs|) by {
      assert forall i :: 0 <= i < |where| ==> ClauseInRange(where[i], |args|);
    }
    forall row
      ensures Selects(where, allArgs, row, ops) <==> Matches(f, row, ops)
    {
      WhereIgnoresMoreArgs(where, args, bounds, row, ops);
    }
    forall i | 0 <= i < |where|
      ensures !Uses(where[i], limitPlaceholder) && !Uses(where[i], offsetPlaceholder)
    {
      assert ClauseInRange(where[i], |args|);
    }
  }

  function PageLimit(limit: int): (n: nat)
    ensures 1 <= n <= 200
  {
    if limit <= 0 || limit > 200 then 50 else limit
  }

  const MAX_OFFSET := 1_000_000

  function PageOffset(offset: int): (n: nat)
    ensures n <= MAX_OFFSET
  {
    if offset < 0 then 0 else if offset > MAX_OFFSET then MAX_OFFSET else offset
  }
}
