/** The previous names of the tables and columns of a database, and the migrations they stand for. */
module Renames {
  import opened Common

  /** A declared rename: the name a column has, and the text it was declared with, if it is a text. */
  datatype Declaration = Declaration(name: string, previous: Option<string>)

  /** Renames by current name. */
  type Renames = map<string, string>

  /** `columns[name]` is something. */
  predicate Answers(columns: set<string>, name: string) {
    name in columns || name in INHERITED
  }

  /** `renames[name] = previous`, which is ignored for `__proto__`. */
  function Assign(renames: Renames, name: string, previous: string): Renames {
    if name == "__proto__" then renames else renames[name := previous]
  }

  predicate IsValid(columns: set<string>, renames: Renames, d: Declaration) {
    && d.previous.Some? && d.previous.value != ""
    && Answers(columns, d.name) && !Answers(columns, d.previous.value)
    && d.previous.value !in renames.Values
  }

  /** The renames of the valid declarations, and whether there is an invalid one. */
  function Collect(columns: set<string>, declarations: seq<Declaration>): (Renames, bool) {
    if declarations == [] then (map[], false)
    else
      var (renames, failed) := Collect(columns, declarations[..|declarations| - 1]);
      var d := declarations[|declarations| - 1];
      if IsValid(columns, renames, d) then (Assign(renames, d.name, d.previous.value), failed) else (renames, true)
  }

  /** The renames of a table's columns, or nothing when one of them is invalid. */
  method GetColumnRenames(columns: set<string>, declarations: seq<Declaration>) returns (r: Option<Renames>)
    ensures r == if Collect(columns, declarations).1 then None else Some(Collect(columns, declarations).0)
  {
    var renames: Renames := map[];
    var errors: seq<string> := [];
    for i := 0 to |declarations|
      invariant Collect(columns, declarations[..i]) == (renames, errors != [])
    {
      var d := declarations[i];
      assert declarations[..i + 1][..i] == declarations[..i];
      if d.previous.None? || d.previous.value == "" || !Answers(columns, d.name)
         || Answers(columns, d.previous.value) || d.previous.value in renames.Values {
        errors := errors + [d.name];
      } else {
        renames := Assign(renames, d.name, d.previous.value);
      }
    }
    assert declarations[..|declarations|] == declarations;
    if errors != [] {
      return None;
    }
    return Some(renames);
  }

  datatype Table = Table(name: string, previous: Option<string>)

  function Names(tables: seq<Table>): set<string> {
    set t | t in tables :: t.name
  }

  /** The previous name of a table, when it declares one. */
  function Previous(t: Table): Option<string> {
    if t.previous.Some? && t.previous.value != "" then t.previous else None
  }

  function TakenBy(tables: seq<Table>): set<string> {
    set t | t in tables && Previous(t).Some? :: Previous(t).value
  }

  /** The tables renamed from a name that is taken. */
  method ValidateRenames(tables: seq<Table>) returns (errors: seq<Table>)
    ensures errors == [] <==> TablesAreRenamedApart(tables)
    ensures forall t :: t in errors ==> t in tables && Previous(t).Some?
  {
    hide TablesApartUpTo;
    var takenNames := Names(tables);
    errors := [];
    ApartFromStart(tables);
    for i := 0 to |tables|
      invariant takenNames == Names(tables) + TakenBy(tables[..i])
      invariant errors == [] <==> TablesApartUpTo(tables, i)
      invariant forall t :: t in errors ==> t in tables && Previous(t).Some?
    {
      var t := tables[i];
      assert tables[..i + 1] == tables[..i] + [t];
      ApartOneMore(tables, i);
      if Previous(t).Some? {
        if Previous(t).value in takenNames {
          errors := errors + [t];
        } else {
          takenNames := takenNames + {Previous(t).value};
        }
      }
    }
  }

  lemma ApartFromStart(tables: seq<Table>)
    ensures TablesApartUpTo(tables, 0)
  {
  }

  lemma ApartOneMore(tables: seq<Table>, i: nat)
    requires i < |tables|
    ensures TablesApartUpTo(tables, i + 1) <==>
      && TablesApartUpTo(tables, i)
      && (Previous(tables[i]).Some? ==> Previous(tables[i]).value !in Names(tables) + TakenBy(tables[..i]))
  {
    var before := tables[..i];
    if Previous(tables[i]).Some? && Previous(tables[i]).value in TakenBy(before) {
      var t :| t in before && Previous(t).Some? && Previous(t).value == Previous(tables[i]).value;
      var k :| 0 <= k < i && before[k] == t;
      assert tables[k] == t;
    }
    forall k | 0 <= k < i && Previous(tables[k]).Some?
      ensures Previous(tables[k]).value in TakenBy(before)
    {
      assert before[k] in before;
    }
  }

  ghost predicate TablesApartUpTo(tables: seq<Table>, n: nat)
    requires n <= |tables|
  {
    && (forall i :: 0 <= i < n && Previous(tables[i]).Some? ==> Previous(tables[i]).value !in Names(tables))
    && (forall i, j :: 0 <= i < j < n && Previous(tables[i]).Some? && Previous(tables[j]).Some? ==>
          Previous(tables[i]).value != Previous(tables[j]).value)
  }

  /** No previous name is the name of a table, and no two tables share one. */
  ghost predicate TablesAreRenamedApart(tables: seq<Table>) {
    TablesApartUpTo(tables, |tables|)
  }

  /** The table is renamed from the name. */
  predicate IsRenamedFrom(t: Table, previous: string) {
    t.previous == Some(previous) && previous != ""
  }

  /** Previous names are free and differ from each other; an empty one is none. */
  lemma RenamedApartIs(tables: seq<Table>)
    ensures TablesAreRenamedApart(tables) <==>
      && (forall i, j, p :: 0 <= i < |tables| && 0 <= j < |tables| && IsRenamedFrom(tables[i], p) ==>
            tables[j].name != p)
      && (forall i, j, p :: 0 <= i < j < |tables| && IsRenamedFrom(tables[i], p) ==> !IsRenamedFrom(tables[j], p))
  {
    assert forall t :: t in tables ==> t.name in Names(tables);
    assert forall t, p :: IsRenamedFrom(t, p) <==> Previous(t) == Some(p);
    hide Previous, IsRenamedFrom;
    if TablesAreRenamedApart(tables) {
      forall i, j, p | 0 <= i < |tables| && 0 <= j < |tables| && IsRenamedFrom(tables[i], p)
        ensures tables[j].name != p
      {
        assert tables[j] in tables;
      }
    }
  }

  // ---------------------------------------------------------------------------------
  // What acceptance means

  /** The renames go from names that are gone, each to one name that exists. */
  ghost predicate Sound(names: set<string>, renames: Renames) {
    && renames.Keys <= names
    && renames.Values !! names
    && (forall a, b :: a in renames && b in renames && a != b ==> renames[a] != renames[b])
  }

  ghost predicate DistinctNames(declarations: seq<Declaration>) {
    forall i, j :: 0 <= i < j < |declarations| ==> declarations[i].name != declarations[j].name
  }

  /** A declaration is right by itself. */
  predicate IsRight(columns: set<string>, d: Declaration) {
    d.previous.Some? && d.previous.value != "" && Answers(columns, d.name) && !Answers(columns, d.previous.value)
  }

  ghost predicate AreRight(columns: set<string>, declarations: seq<Declaration>) {
    && (forall i :: 0 <= i < |declarations| ==> IsRight(columns, declarations[i]))
    && (forall i, j :: 0 <= i < j < |declarations| && declarations[i].name != "__proto__" ==>
          declarations[i].previous != declarations[j].previous)
  }

  ghost predicate IsDeclared(declarations: seq<Declaration>, name: string) {
    exists i :: 0 <= i < |declarations| && declarations[i].name == name
  }

  /** The renames are those of the declarations, `__proto__` aside. */
  ghost predicate AreCollected(declarations: seq<Declaration>, renames: Renames) {
    && (forall n :: n in renames ==> IsDeclared(declarations, n))
    && (forall i :: 0 <= i < |declarations| && declarations[i].name != "__proto__" ==>
          declarations[i].name in renames && declarations[i].previous == Some(renames[declarations[i].name]))
    && "__proto__" !in renames
  }

  /** Column renames pass just when each is right and, `__proto__` aside, no two are from the same name. */
  lemma {:induction false} ColumnsAccepted(columns: set<string>, declarations: seq<Declaration>)
    requires DistinctNames(declarations)
    ensures !Collect(columns, declarations).1 <==> AreRight(columns, declarations)
    ensures !Collect(columns, declarations).1 ==> AreCollected(declarations, Collect(columns, declarations).0)
  {
    if declarations != [] {
      var init, d := declarations[..|declarations| - 1], declarations[|declarations| - 1];
      LastOf([], declarations);
      assert DistinctNames(init);
      RightWithoutLast(columns, init, d);
      hide AreRight, AreCollected, IsValid, Assign;
      ColumnsAccepted(columns, init);
      if !Collect(columns, init).1 {
        var renames := Collect(columns, init).0;
        hide Collect;
        LastIsApart(columns, init, d, renames);
        if IsValid(columns, renames, d) {
          CollectedNext(columns, init, d, renames);
        }
      }
    }
  }

  lemma CollectedNext(columns: set<string>, init: seq<Declaration>, d: Declaration, renames: Renames)
    requires DistinctNames(init + [d]) && AreCollected(init, renames) && IsValid(columns, renames, d)
    ensures d.previous.Some? && AreCollected(init + [d], Assign(renames, d.name, d.previous.value))
  {
    hide Answers;
    var all, next := init + [d], Assign(renames, d.name, d.previous.value);
    assert all[|init|] == d && forall i :: 0 <= i < |init| ==> all[i] == init[i];
    forall n | n in next
      ensures IsDeclared(all, n)
    {
      if n in renames && n != d.name {
        var i :| 0 <= i < |init| && init[i].name == n;
        assert all[i].name == n;
      }
    }
  }

  lemma RightWithoutLast(columns: set<string>, init: seq<Declaration>, d: Declaration)
    ensures AreRight(columns, init + [d]) ==> AreRight(columns, init)
  {
    hide IsRight;
    assert forall i :: 0 <= i < |init| ==> (init + [d])[i] == init[i];
  }

  lemma LastIsApart(columns: set<string>, init: seq<Declaration>, d: Declaration, renames: Renames)
    requires DistinctNames(init + [d]) && AreRight(columns, init) && AreCollected(init, renames)
    ensures AreRight(columns, init + [d]) <==> IsValid(columns, renames, d)
  {
    hide Answers;
    var all := init + [d];
    assert all[|init|] == d && forall i :: 0 <= i < |init| ==> all[i] == init[i];
    if AreRight(columns, all) {
      assert IsRight(columns, all[|init|]);
      forall n | n in renames
        ensures Some(renames[n]) != d.previous
      {
        var k :| 0 <= k < |init| && init[k].name == n;
        assert all[k].previous != all[|init|].previous;
      }
    }
    if IsValid(columns, renames, d) {
      forall i | 0 <= i < |init| && init[i].name != "__proto__"
        ensures init[i].previous != d.previous
      {
        assert renames[init[i].name] in renames.Values;
      }
    }
  }

  /** Accepted column renames are sound, unless one is of a name every object answers to and no column has. */
  lemma AcceptedColumnsAreSound(columns: set<string>, declarations: seq<Declaration>)
    requires DistinctNames(declarations) && !Collect(columns, declarations).1
    ensures Sound(columns, Collect(columns, declarations).0) <==>
            forall d :: d in declarations && d.name != "__proto__" ==> d.name in columns
  {
    var renames := Collect(columns, declarations).0;
    ColumnsAccepted(columns, declarations);
    hide Collect, AreRight, AreCollected, IsRight;
    forall a, b | a in renames && b in renames
      ensures renames[a] !in columns && (a != b ==> renames[a] != renames[b])
    {
      RenamesAreApart(columns, declarations, renames, a, b);
    }
    RenamedAre(declarations, renames);
  }

  lemma RenamesAreApart(columns: set<string>, declarations: seq<Declaration>, renames: Renames, a: string, b: string)
    requires AreRight(columns, declarations) && AreCollected(declarations, renames) && a in renames && b in renames
    ensures renames[a] !in columns && (a != b ==> renames[a] != renames[b])
  {
    hide IsRight;
    var i :| 0 <= i < |declarations| && declarations[i].name == a;
    var j :| 0 <= j < |declarations| && declarations[j].name == b;
    PreviousIsNoColumn(columns, declarations[i]);
  }

  lemma RenamedAre(declarations: seq<Declaration>, renames: Renames)
    requires AreCollected(declarations, renames)
    ensures forall n :: n in renames <==> exists d :: d in declarations && d.name == n && d.name != "__proto__"
  {
    forall n | n in renames
      ensures exists d :: d in declarations && d.name == n && d.name != "__proto__"
    {
      var i :| 0 <= i < |declarations| && declarations[i].name == n;
      assert declarations[i] in declarations;
    }
  }

  lemma PreviousIsNoColumn(columns: set<string>, d: Declaration)
    requires IsRight(columns, d)
    ensures d.previous.value !in columns
  {
  }

  /** The renames the tables declare. */
  function TableRenames(tables: seq<Table>): Renames {
    if tables == [] then map[]
    else
      var rest, t := TableRenames(tables[..|tables| - 1]), tables[|tables| - 1];
      if Previous(t).Some? then rest[t.name := Previous(t).value] else rest
  }

  /** Some table has the name and the previous name. */
  ghost predicate Declares(tables: seq<Table>, name: string, previous: string) {
    exists i :: 0 <= i < |tables| && tables[i].name == name && IsRenamedFrom(tables[i], previous)
  }

  ghost predicate DistinctTables(tables: seq<Table>) {
    forall i, j :: 0 <= i < j < |tables| ==> tables[i].name != tables[j].name
  }

  lemma {:induction false} TableRenamesAre(tables: seq<Table>)
    ensures forall n :: n in TableRenames(tables) ==> Declares(tables, n, TableRenames(tables)[n])
    ensures DistinctTables(tables) ==>
      forall n, p :: Declares(tables, n, p) ==> n in TableRenames(tables) && TableRenames(tables)[n] == p
  {
    if tables != [] {
      var init, t := tables[..|tables| - 1], tables[|tables| - 1];
      TableRenamesAre(init);
      forall n, p
        ensures Declares(tables, n, p) <==> Declares(init, n, p) || (n == t.name && Previous(t) == Some(p))
      {
        DeclaresOneMore(init, t, n, p);
        assert tables == init + [t];
      }
    }
  }

  lemma DeclaresOneMore(init: seq<Table>, t: Table, name: string, previous: string)
    ensures Declares(init + [t], name, previous) <==>
            Declares(init, name, previous) || (name == t.name && Previous(t) == Some(previous))
  {
    var all := init + [t];
    assert all[|init|] == t;
    if Declares(init, name, previous) {
      var i :| 0 <= i < |init| && init[i].name == name && IsRenamedFrom(init[i], previous);
      assert all[i] == init[i];
    }
  }

  /** Accepted table renames are sound. */
  lemma AcceptedTablesAreSound(tables: seq<Table>)
    requires TablesAreRenamedApart(tables)
    ensures Sound(Names(tables), TableRenames(tables))
  {
    var renames := TableRenames(tables);
    TableRenamesAre(tables);
    forall a, b | a in renames && b in renames && a != b
      ensures renames[a] != renames[b]
    {
      assert Declares(tables, a, renames[a]) && Declares(tables, b, renames[b]);
      var i :| 0 <= i < |tables| && tables[i].name == a && Previous(tables[i]) == Some(renames[a]);
      var j :| 0 <= j < |tables| && tables[j].name == b && Previous(tables[j]) == Some(renames[b]);
    }
    forall a | a in renames
      ensures a in Names(tables) && renames[a] !in Names(tables)
    {
      assert Declares(tables, a, renames[a]);
      var i :| 0 <= i < |tables| && tables[i].name == a && Previous(tables[i]) == Some(renames[a]);
      assert tables[i] in tables;
    }
  }

  // ---------------------------------------------------------------------------------
  // Migrations

  /** The names before the renames. */
  function OldNames(names: set<string>, renames: Renames): set<string> {
    (names - renames.Keys) + renames.Values
  }

  function Rename<T>(data: map<string, T>, from: string, to: string): map<string, T> {
    if from in data then (data - {from})[to := data[from]] else data
  }

  /** The renames go from names of the data, each to one name the data does not have. */
  ghost predicate Applicable<T>(renames: Renames, data: map<string, T>) {
    && renames.Values <= data.Keys
    && renames.Keys !! data.Keys
    && (forall a, b :: a in renames && b in renames && a != b ==> renames[a] != renames[b])
  }

  /** All the renames at once: what has a new name is under it, everything else stays where it is. */
  ghost function AtOnce<T>(renames: Renames, data: map<string, T>): map<string, T>
    requires Applicable(renames, data)
  {
    map n | n in (data.Keys - renames.Values) + renames.Keys :: data[if n in renames then renames[n] else n]
  }

  /** One rename after another, in the order of `order`. */
  function InOrder<T>(renames: Renames, data: map<string, T>, order: seq<string>): map<string, T>
    requires forall n :: n in order ==> n in renames
  {
    if order == [] then data
    else
      var last := order[|order| - 1];
      Rename(InOrder(renames, data, order[..|order| - 1]), renames[last], last)
  }

  /** Each rename of the way finds what it renames, and nothing under the new name. */
  predicate NeverCollides<T>(renames: Renames, data: map<string, T>, order: seq<string>)
    requires forall n :: n in order ==> n in renames
  {
    order == [] ||
    var init, last := order[..|order| - 1], order[|order| - 1];
    var before := InOrder(renames, data, init);
    NeverCollides(renames, data, init) && renames[last] in before && last !in before
  }

  /** One rename after another, backwards. */
  function Undone<T>(renames: Renames, data: map<string, T>, order: seq<string>): map<string, T>
    requires forall n :: n in order ==> n in renames
  {
    if order == [] then data
    else
      var last := order[|order| - 1];
      Rename(Undone(renames, data, order[..|order| - 1]), last, renames[last])
  }

  /** The names of the order: all those renamed, once each. */
  ghost predicate IsOrderOf(order: seq<string>, renames: Renames) {
    Distinct(order) && (forall n :: n in order <==> n in renames)
  }

  function Restrict(renames: Renames, names: set<string>): Renames {
    map n | n in renames && n in names :: renames[n]
  }

  function Elements(order: seq<string>): set<string> {
    set n | n in order
  }

  lemma RestrictIsApplicable<T>(renames: Renames, data: map<string, T>, names: set<string>)
    requires Applicable(renames, data)
    ensures Applicable(Restrict(renames, names), data)
  {
  }

  lemma OneLess<T>(renames: Renames, data: map<string, T>, c: string)
    requires Applicable(renames, data) && c in renames
    ensures Applicable(renames - {c}, data)
    ensures (renames - {c}).Values == renames.Values - {renames[c]}
  {
    var less := renames - {c};
    forall v | v in renames.Values && v != renames[c]
      ensures v in less.Values
    {
      var n :| n in renames && renames[n] == v;
      assert n in less && less[n] == v;
    }
  }

  /** One rename more. */
  lemma StepForth<T>(renames: Renames, data: map<string, T>, c: string)
    requires Applicable(renames, data) && c in renames
    ensures Applicable(renames - {c}, data)
    ensures renames[c] in AtOnce(renames - {c}, data) && c !in AtOnce(renames - {c}, data)
    ensures Rename(AtOnce(renames - {c}, data), renames[c], c) == AtOnce(renames, data)
  {
    OneLess(renames, data, c);
    hide Applicable;
  }

  /** One rename less. */
  lemma StepBack<T>(renames: Renames, data: map<string, T>, c: string)
    requires Applicable(renames, data) && c in renames
    ensures Applicable(renames - {c}, data)
    ensures Rename(AtOnce(renames, data), c, renames[c]) == AtOnce(renames - {c}, data)
  {
    OneLess(renames, data, c);
  }

  lemma WithoutLast(renames: Renames, order: seq<string>)
    requires order != [] && Distinct(order) && forall n :: n in order ==> n in renames
    ensures
      var init, last := order[..|order| - 1], order[|order| - 1];
      && Distinct(init)
      && last in Restrict(renames, Elements(order)) && Restrict(renames, Elements(order))[last] == renames[last]
      && Restrict(renames, Elements(order)) - {last} == Restrict(renames, Elements(init))
      && last in renames - Elements(init)
      && renames - Elements(init) - {last} == renames - Elements(order)
  {
    var init, last := order[..|order| - 1], order[|order| - 1];
    assert Elements(order) == Elements(init) + {last} && last !in init by {
      assert order == init + [last];
    }
  }

  lemma NoRenames<T>(renames: Renames, data: map<string, T>)
    requires renames == map[]
    ensures Applicable(renames, data) && AtOnce(renames, data) == data
  {
  }

  /** Part of the renames, one after another, is that part at once. */
  lemma {:induction false} InOrderIsAtOnce<T>(renames: Renames, data: map<string, T>, order: seq<string>)
    requires Applicable(renames, data) && Distinct(order) && forall n :: n in order ==> n in renames
    ensures Applicable(Restrict(renames, Elements(order)), data)
    ensures InOrder(renames, data, order) == AtOnce(Restrict(renames, Elements(order)), data)
    ensures NeverCollides(renames, data, order)
  {
    var part := Restrict(renames, Elements(order));
    assert order == [] ==> part == map[];
    RestrictIsApplicable(renames, data, Elements(order));
    hide Applicable, AtOnce, Rename, Restrict, Elements;
    if order == [] {
      NoRenames(part, data);
    } else {
      var init, last := order[..|order| - 1], order[|order| - 1];
      InOrderIsAtOnce(renames, data, init);
      WithoutLast(renames, order);
      StepForth(part, data, last);
    }
  }

  /** Taking part of the renames back leaves the others. */
  lemma {:induction false} UndoneIsTheRest<T>(renames: Renames, data: map<string, T>, order: seq<string>)
    requires Applicable(renames, data) && Distinct(order) && forall n :: n in order ==> n in renames
    ensures Applicable(renames - Elements(order), data)
    ensures Undone(renames, AtOnce(renames, data), order) == AtOnce(renames - Elements(order), data)
  {
    hide Applicable, AtOnce, Rename;
    if order == [] {
      assert renames - Elements(order) == renames;
    } else {
      var init, last := order[..|order| - 1], order[|order| - 1];
      UndoneIsTheRest(renames, data, init);
      WithoutLast(renames, order);
      StepBack(renames - Elements(init), data, last);
    }
  }

  /** An order leaves nothing out. */
  lemma OrderIsComplete(renames: Renames, order: seq<string>)
    requires IsOrderOf(order, renames)
    ensures Restrict(renames, Elements(order)) == renames
    ensures renames - Elements(order) == map[]
  {
    assert forall n :: n in Elements(order) <==> n in renames;
  }

  lemma SoundIsApplicable<T>(names: set<string>, renames: Renames, data: map<string, T>)
    requires Sound(names, renames) && data.Keys == OldNames(names, renames)
    ensures Applicable(renames, data)
    ensures AtOnce(renames, data).Keys == names
  {
  }

  /**
   * Sound renames migrate any data under the old names to the new names: in every order no rename meets a
   * name in use, the outcome is that of all renames at once, and taking them back, in every order too,
   * restores the data.
   */
  lemma RenamesCommute<T>(
    names: set<string>, renames: Renames, data: map<string, T>, order: seq<string>, back: seq<string>
  )
    requires Sound(names, renames) && data.Keys == OldNames(names, renames)
    requires IsOrderOf(order, renames) && IsOrderOf(back, renames)
    ensures Applicable(renames, data)
    ensures NeverCollides(renames, data, order)
    ensures InOrder(renames, data, order) == AtOnce(renames, data)
    ensures InOrder(renames, data, order).Keys == names
    ensures Undone(renames, InOrder(renames, data, order), back) == data
  {
    SoundIsApplicable(names, renames, data);
    OrderIsComplete(renames, order);
    OrderIsComplete(renames, back);
    hide Applicable, AtOnce, InOrder, Undone, NeverCollides, Sound, OldNames, Restrict, Elements;
    InOrderIsAtOnce(renames, data, order);
    UndoneIsTheRest(renames, data, back);
    NoRenames(renames - Elements(back), data);
  }

  /** What the check of the columns accepts commutes, when the declared columns are those of the table. */
  lemma ColumnRenamesCommute<T>(
    columns: set<string>, declarations: seq<Declaration>, data: map<string, T>, order: seq<string>, back: seq<string>
  )
    requires DistinctNames(declarations) && !Collect(columns, declarations).1
    requires forall d :: d in declarations && d.name != "__proto__" ==> d.name in columns
    requires data.Keys == OldNames(columns, Collect(columns, declarations).0)
    requires IsOrderOf(order, Collect(columns, declarations).0) && IsOrderOf(back, Collect(columns, declarations).0)
    ensures var renames := Collect(columns, declarations).0;
      && NeverCollides(renames, data, order)
      && Applicable(renames, data)
      && InOrder(renames, data, order) == AtOnce(renames, data)
      && InOrder(renames, data, order).Keys == columns
      && Undone(renames, InOrder(renames, data, order), back) == data
  {
    AcceptedColumnsAreSound(columns, declarations);
    RenamesCommute(columns, Collect(columns, declarations).0, data, order, back);
  }

  /** What the check of the tables accepts commutes. */
  lemma TableRenamesCommute<T>(tables: seq<Table>, data: map<string, T>, order: seq<string>, back: seq<string>)
    requires DistinctTables(tables) && TablesAreRenamedApart(tables)
    requires data.Keys == OldNames(Names(tables), TableRenames(tables))
    requires IsOrderOf(order, TableRenames(tables)) && IsOrderOf(back, TableRenames(tables))
    ensures var renames := TableRenames(tables);
      && (forall n, p :: Declares(tables, n, p) <==> n in renames && renames[n] == p)
      && NeverCollides(renames, data, order)
      && Applicable(renames, data)
      && InOrder(renames, data, order) == AtOnce(renames, data)
      && InOrder(renames, data, order).Keys == Names(tables)
      && Undone(renames, InOrder(renames, data, order), back) == data
  {
    TableRenamesAre(tables);
    AcceptedTablesAreSound(tables);
    RenamesCommute(Names(tables), TableRenames(tables), data, order, back);
  }

  /** The check of the columns lets a rename of a column the table does not have through. */
  lemma InheritedNameIsAccepted()
    ensures
      var declarations := [Declaration("constructor", Some("maker"))];
      && DistinctNames(declarations) && !Collect({"id"}, declarations).1
      && !Sound({"id"}, Collect({"id"}, declarations).0)
  {
    var d := Declaration("constructor", Some("maker"));
    assert "constructor" != "__proto__" && !Answers({"id"}, "maker");
    assert Collect({"id"}, [d][..0]) == (map[], false);
    assert [d][|[d]| - 1] == d;
    assert IsValid({"id"}, map[], d);
    assert Collect({"id"}, [d]) == (map["constructor" := "maker"], false);
    assert "constructor" in map["constructor" := "maker"];
  }
}
