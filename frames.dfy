/** The pandas structures the feature code manipulates, reduced to what it uses:
    a frame with a default integer index and named real columns, the one-row
    tables that every feature function returns, column assignment, the outer join
    of one-row tables, the NaN test, and the `channel + suffix` naming scheme. */
module Frames {
  import opened Numerics

  /** One cell of a one-row table: a column name and its single value. */
  datatype Column = Column(name: string, value: Value)

  /** A one-row DataFrame, its columns in insertion order. */
  type Row = seq<Column>

  function Names(r: Row): (ns: seq<string>)
    ensures |ns| == |r|
    ensures forall i :: 0 <= i < |r| ==> ns[i] == r[i].name
  {
    seq(|r|, i requires 0 <= i < |r| => r[i].name)
  }

  lemma NamesAppend(a: Row, b: Row)
    ensures Names(a + b) == Names(a) + Names(b)
  {
  }

  predicate Distinct<T(==)>(s: seq<T>)
  {
    forall i, j :: 0 <= i < j < |s| ==> s[i] != s[j]
  }

  /** No column of a has the name of a column of b. */
  predicate Disjoint(a: Row, b: Row)
  {
    forall i, j :: 0 <= i < |a| && 0 <= j < |b| ==> a[i].name != b[j].name
  }

  /** Position of the first column called `name`, or -1 when there is none. */
  function FindColumn(r: Row, name: string): (k: int)
    ensures -1 <= k < |r|
    ensures k == -1 <==> forall j :: 0 <= j < |r| ==> r[j].name != name
    ensures k >= 0 ==> r[k].name == name && forall j :: 0 <= j < k ==> r[j].name != name
  {
    if r == [] then -1
    else if r[0].name == name then 0
    else
      var k := FindColumn(r[1..], name);
      assert forall j :: 0 < j < |r| ==> r[j] == r[1..][j - 1];
      if k == -1 then -1 else k + 1
  }

  /** `df[name] = [v]`: an existing column keeps its place and takes the new
      value; a new column goes to the end. */
  function SetColumn(r: Row, name: string, v: Value): (r': Row)
    ensures |r'| == |r| || r' == r + [Column(name, v)]
  {
    var k := FindColumn(r, name);
    if k == -1 then r + [Column(name, v)] else r[k := Column(name, v)]
  }

  /** Assigning a name already present replaces that column's value in place;
      assigning a new name appends a column. */
  lemma SetColumnCases(r: Row, name: string, v: Value)
    ensures (exists j :: 0 <= j < |r| && r[j].name == name) ==>
              |SetColumn(r, name, v)| == |r| && Names(SetColumn(r, name, v)) == Names(r)
    ensures (forall j :: 0 <= j < |r| ==> r[j].name != name) ==>
              SetColumn(r, name, v) == r + [Column(name, v)]
  {
    var k := FindColumn(r, name);
    if k != -1 {
      assert Names(r[k := Column(name, v)]) == Names(r);
    }
  }

  /** `for c in cells: df[c.name] = [c.value]`, in order. */
  function SetColumns(r: Row, cells: seq<Column>): Row
    decreases |cells|
  {
    if cells == [] then r else SetColumns(SetColumn(r, cells[0].name, cells[0].value), cells[1..])
  }

  /** Assigning columns whose names are new and pairwise distinct appends them. */
  lemma {:induction false} SetColumnsAppend(r: Row, cells: seq<Column>)
    requires Disjoint(r, cells) && Distinct(Names(cells))
    ensures SetColumns(r, cells) == r + cells
    decreases |cells|
  {
    if cells != [] {
      var r1 := r + [cells[0]];
      assert SetColumn(r, cells[0].name, cells[0].value) == r1 by {
        assert forall j :: 0 <= j < |r| ==> r[j].name != cells[0].name;
      }
      assert SetColumns(r, cells) == SetColumns(r1, cells[1..]);
      FreshRest(r, cells);
      SetColumnsAppend(r1, cells[1..]);
      assert r1 + cells[1..] == r + cells;
    }
  }

  /** After the first of such columns is appended, the others are still new. */
  lemma FreshRest(r: Row, cells: seq<Column>)
    requires cells != [] && Disjoint(r, cells) && Distinct(Names(cells))
    ensures Disjoint(r + [cells[0]], cells[1..]) && Distinct(Names(cells[1..]))
  {
    forall i, j | 0 <= i < |r| + 1 && 0 <= j < |cells| - 1
      ensures (r + [cells[0]])[i].name != cells[1..][j].name
    {
      assert cells[1..][j] == cells[j + 1];
      if i == |r| {
        assert Names(cells)[0] != Names(cells)[j + 1];
      }
    }
    forall i, j | 0 <= i < j < |cells| - 1
      ensures Names(cells[1..])[i] != Names(cells[1..])[j]
    {
      assert Names(cells)[i + 1] != Names(cells)[j + 1];
    }
  }

  /** `a.join(b, how='outer')` of two one-row tables: the columns of a then those of
      b; pandas refuses (ValueError) when a column name occurs in both. */
  function Join(a: Row, b: Row): (r: Outcome<Row>)
    ensures r.Raised? <==> exists n :: n in Names(a) && n in Names(b)
    ensures r.Ok? ==> r.value == a + b
  {
    if exists n :: n in Names(a) && n in Names(b) then Raised(ValueError) else Ok(a + b)
  }

  /** `df.isnull().values.any()` on a one-row table. */
  predicate HasNaN(r: Row)
  {
    exists i :: 0 <= i < |r| && r[i].value.NaN?
  }

  // ---------------------------------------------------------------------------
  // Column naming: every feature column is `channel + suffix`.

  function ColumnName(channel: string, suffix: string): string
  {
    channel + suffix
  }

  predicate EndsWith(s: string, suffix: string)
  {
    |suffix| <= |s| && s[|s| - |suffix|..] == suffix
  }

  /** Neither suffix ends the other, so no two names built from them can meet. */
  predicate Incomparable(s1: string, s2: string)
  {
    !EndsWith(s1, s2) && !EndsWith(s2, s1)
  }

  /** Every suffix of ss1 is incomparable with every suffix of ss2. */
  predicate Apart(ss1: seq<string>, ss2: seq<string>)
  {
    forall i, j :: 0 <= i < |ss1| && 0 <= j < |ss2| ==> Incomparable(ss1[i], ss2[j])
  }

  /** Every column name of r ends in one of the suffixes ss. */
  predicate NamesEndIn(r: Row, ss: seq<string>)
  {
    forall i :: 0 <= i < |r| ==> EndsInOneOf(r[i].name, ss)
  }

  predicate EndsInOneOf(n: string, ss: seq<string>)
  {
    exists j :: 0 <= j < |ss| && EndsWith(n, ss[j])
  }

  lemma ColumnNameEndsWith(channel: string, suffix: string)
    ensures EndsWith(ColumnName(channel, suffix), suffix)
  {
    var n := ColumnName(channel, suffix);
    assert n[|n| - |suffix|..] == suffix;
  }

  /** For one suffix, the column name determines the channel. */
  lemma NameInjective(c1: string, c2: string, suffix: string)
    requires ColumnName(c1, suffix) == ColumnName(c2, suffix)
    ensures c1 == c2
  {
    var n := ColumnName(c1, suffix);
    assert c1 == n[..|c1|];
    assert c2 == n[..|c2|];
  }

  /** A name that ends in one suffix does not end in one incomparable with it. */
  lemma IncomparableEnds(n: string, s1: string, s2: string)
    requires EndsWith(n, s1) && Incomparable(s1, s2)
    ensures !EndsWith(n, s2)
  {
    if |s2| <= |n| {
      var t := n[|n| - |s2|..];
      if |s1| <= |s2| {
        assert t[|t| - |s1|..] == s1;
      } else {
        assert s1[|s1| - |s2|..] == t;
      }
    }
  }

  /** Tables whose names end in apart suffix sets join without overlap. */
  lemma {:induction false} JoinApart(a: Row, b: Row, ssa: seq<string>, ssb: seq<string>)
    requires NamesEndIn(a, ssa) && NamesEndIn(b, ssb) && Apart(ssa, ssb)
    ensures Join(a, b) == Ok(a + b)
    ensures NamesEndIn(a + b, ssa + ssb)
  {
    forall n | n in Names(a)
      ensures n !in Names(b)
    {
      var i :| 0 <= i < |a| && a[i].name == n;
      var j :| 0 <= j < |ssa| && EndsWith(n, ssa[j]);
      forall k | 0 <= k < |b|
        ensures b[k].name != n
      {
        var l :| 0 <= l < |ssb| && EndsWith(b[k].name, ssb[l]);
        IncomparableEnds(b[k].name, ssb[l], ssa[j]);
      }
    }
    forall i | 0 <= i < |a + b|
      ensures EndsInOneOf((a + b)[i].name, ssa + ssb)
    {
      if i < |a| {
        var j :| 0 <= j < |ssa| && EndsWith(a[i].name, ssa[j]);
        assert (a + b)[i] == a[i] && (ssa + ssb)[j] == ssa[j];
        assert EndsWith((a + b)[i].name, (ssa + ssb)[j]);
      } else {
        var j :| 0 <= j < |ssb| && EndsWith(b[i - |a|].name, ssb[j]);
        assert (a + b)[i] == b[i - |a|] && (ssa + ssb)[|ssa| + j] == ssb[j];
        assert EndsWith((a + b)[i].name, (ssa + ssb)[|ssa| + j]);
      }
    }
  }

  /** Joining a table onto the accumulated one when their suffix sets are apart:
      the columns are appended, the names stay distinct, and every name ends in
      one of the suffixes seen so far. */
  lemma JoinStep(acc: Row, t: Row, ssa: seq<string>, sst: seq<string>)
    requires NamesEndIn(acc, ssa) && NamesEndIn(t, sst) && Apart(ssa, sst)
    requires Distinct(Names(acc)) && Distinct(Names(t))
    ensures Join(acc, t) == Ok(acc + t)
    ensures NamesEndIn(acc + t, ssa + sst)
    ensures Distinct(Names(acc + t))
  {
    JoinApart(acc, t, ssa, sst);
    JoinDisjoint(acc, t);
    DistinctAppend(acc, t);
  }

  /** The join succeeds exactly when no column name is shared. */
  lemma JoinDisjoint(a: Row, b: Row)
    ensures Join(a, b).Ok? <==> Disjoint(a, b)
  {
    if !Disjoint(a, b) {
      var i, j :| 0 <= i < |a| && 0 <= j < |b| && a[i].name == b[j].name;
      assert Names(a)[i] in Names(a) && Names(b)[j] in Names(b);
    }
  }

  /** Concatenating tables with distinct names and no common name keeps names distinct. */
  lemma DistinctAppend(a: Row, b: Row)
    requires Distinct(Names(a)) && Distinct(Names(b)) && Disjoint(a, b)
    ensures Distinct(Names(a + b))
  {
    NamesAppend(a, b);
    forall i, j | 0 <= i < j < |a + b|
      ensures Names(a + b)[i] != Names(a + b)[j]
    {
      if i < |a| && j >= |a| {
        assert (a + b)[i] == a[i] && (a + b)[j] == b[j - |a|];
      }
    }
  }

  // ---------------------------------------------------------------------------
  // Successive joins of several tables

  /** All columns of the tables, in order. */
  function Flatten(ts: seq<Row>): (r: Row)
  {
    if ts == [] then [] else ts[0] + Flatten(ts[1..])
  }

  /** `acc = acc.join(t, how='outer')` for each table t in order. */
  function JoinAll(acc: Row, ts: seq<Row>): Outcome<Row>
    decreases |ts|
  {
    if ts == [] then Ok(acc)
    else
      match Join(acc, ts[0])
      case Raised(e) => Raised(e)
      case Ok(a) => JoinAll(a, ts[1..])
  }

  /** One more join, as the straight-line code does it: a clash decides the
      outcome, otherwise the remaining joins continue from the joined table. */
  lemma JoinNext(start: Row, tables: seq<Row>, i: nat, acc: Row)
    requires i < |tables| && (i == 0 ==> acc == start)
    requires i > 0 ==> JoinAll(start, tables) == JoinAll(acc, tables[i..])
    ensures Join(acc, tables[i]).Raised? ==> JoinAll(start, tables) == Raised(Join(acc, tables[i]).error)
    ensures Join(acc, tables[i]).Ok? ==> JoinAll(start, tables) == JoinAll(Join(acc, tables[i]).value, tables[i + 1..])
  {
    assert tables[i..][0] == tables[i] && tables[i..][1..] == tables[i + 1..];
    assert tables[0..] == tables;
  }

  /** `acc = acc.join(t, how='outer')` straight after each table t is computed:
      the first exception, from a table or from a clashing join, ends it. */
  function ExtendAll(acc: Row, outs: seq<Outcome<Row>>): Outcome<Row>
    decreases |outs|
  {
    if outs == [] then Ok(acc)
    else
      match outs[0]
      case Raised(e) => Raised(e)
      case Ok(t) =>
        match Join(acc, t)
        case Raised(e) => Raised(e)
        case Ok(a) => ExtendAll(a, outs[1..])
  }

  /** One more table and its join, as the straight-line code does them. */
  lemma ExtendNext(start: Row, outs: seq<Outcome<Row>>, i: nat, acc: Row)
    requires i < |outs| && (i == 0 ==> acc == start)
    requires i > 0 ==> ExtendAll(start, outs) == ExtendAll(acc, outs[i..])
    ensures outs[i].Raised? ==> ExtendAll(start, outs) == Raised(outs[i].error)
    ensures outs[i].Ok? && Join(acc, outs[i].value).Raised? ==>
              ExtendAll(start, outs) == Raised(Join(acc, outs[i].value).error)
    ensures outs[i].Ok? && Join(acc, outs[i].value).Ok? ==>
              ExtendAll(start, outs) == ExtendAll(Join(acc, outs[i].value).value, outs[i + 1..])
  {
    assert outs[i..][0] == outs[i] && outs[i..][1..] == outs[i + 1..];
    assert outs[0..] == outs;
  }

  /** Whatever the names, a successful sequence of joins only appends: the
      result is the starting table followed by every table's columns. */
  lemma {:induction false} ExtendAllOk(acc: Row, outs: seq<Outcome<Row>>)
    requires ExtendAll(acc, outs).Ok?
    ensures Collect(outs).Ok?
    ensures ExtendAll(acc, outs).value == acc + Flatten(Collect(outs).value)
    decreases |outs|
  {
    if outs == [] {
      assert acc + [] == acc;
    } else {
      var t := outs[0].value;
      ExtendAllOk(acc + t, outs[1..]);
      var rest := Collect(outs[1..]).value;
      assert Collect(outs).value == [t] + rest;
      assert ([t] + rest)[1..] == rest;
      assert acc + t + Flatten(rest) == acc + Flatten(Collect(outs).value);
    }
  }

  /** With pairwise apart suffix sets no join clashes: the outcome is the first
      exception of the tables, or the starting table followed by all of them,
      with distinct names. */
  lemma {:induction false} ExtendAllApart(acc: Row, outs: seq<Outcome<Row>>, ssa: seq<string>, groups: seq<seq<string>>)
    requires |groups| == |outs| && GroupsApart(groups)
    requires NamesEndIn(acc, ssa) && Distinct(Names(acc))
    requires forall i :: 0 <= i < |outs| && outs[i].Ok? ==>
               NamesEndIn(outs[i].value, groups[i]) && Distinct(Names(outs[i].value))
    requires forall i :: 0 <= i < |groups| ==> Apart(ssa, groups[i])
    ensures Collect(outs).Raised? ==> ExtendAll(acc, outs) == Raised(Collect(outs).error)
    ensures Collect(outs).Ok? ==> ExtendAll(acc, outs) == Ok(acc + Flatten(Collect(outs).value))
    ensures Collect(outs).Ok? ==> Distinct(Names(acc + Flatten(Collect(outs).value)))
    decreases |outs|
  {
    if outs == [] {
      assert acc + [] == acc;
    } else if outs[0].Ok? {
      var t := outs[0].value;
      JoinStep(acc, t, ssa, groups[0]);
      var outs', groups' := outs[1..], groups[1..];
      forall i | 0 <= i < |groups'|
        ensures Apart(ssa + groups[0], groups'[i])
      {
        assert groups'[i] == groups[i + 1];
        ApartConcat(ssa, groups[0], groups'[i]);
      }
      forall i | 0 <= i < |outs'| && outs'[i].Ok?
        ensures NamesEndIn(outs'[i].value, groups'[i]) && Distinct(Names(outs'[i].value))
      {
        assert outs'[i] == outs[i + 1] && groups'[i] == groups[i + 1];
      }
      ExtendAllApart(acc + t, outs', ssa + groups[0], groups');
      if Collect(outs').Ok? {
        var rest := Collect(outs').value;
        assert Collect(outs).value == [t] + rest;
        assert ([t] + rest)[1..] == rest;
        assert acc + t + Flatten(rest) == acc + Flatten(Collect(outs).value);
      }
    }
  }

  /** The suffix sets of different tables are apart. */
  predicate GroupsApart(groups: seq<seq<string>>)
  {
    forall i, j :: 0 <= i < j < |groups| ==> Apart(groups[i], groups[j])
  }

  lemma ApartConcat(ssa: seq<string>, ssb: seq<string>, ssc: seq<string>)
    requires Apart(ssa, ssc) && Apart(ssb, ssc)
    ensures Apart(ssa + ssb, ssc)
  {
    forall i, j | 0 <= i < |ssa + ssb| && 0 <= j < |ssc|
      ensures Incomparable((ssa + ssb)[i], ssc[j])
    {
      if i >= |ssa| {
        assert (ssa + ssb)[i] == ssb[i - |ssa|];
      }
    }
  }

  /** Successive joins of tables whose names end in pairwise apart suffix sets
      never raise: the result is every column of every table, in order, with
      distinct names. */
  lemma {:induction false} JoinAllApart(acc: Row, ts: seq<Row>, ssa: seq<string>, groups: seq<seq<string>>)
    requires |groups| == |ts| && GroupsApart(groups)
    requires NamesEndIn(acc, ssa) && Distinct(Names(acc))
    requires forall i :: 0 <= i < |ts| ==> NamesEndIn(ts[i], groups[i]) && Distinct(Names(ts[i]))
    requires forall i :: 0 <= i < |groups| ==> Apart(ssa, groups[i])
    ensures JoinAll(acc, ts) == Ok(acc + Flatten(ts))
    ensures Distinct(Names(acc + Flatten(ts)))
    decreases |ts|
  {
    if ts == [] {
      assert acc + [] == acc;
    } else {
      JoinStep(acc, ts[0], ssa, groups[0]);
      var groups' := groups[1..];
      forall i | 0 <= i < |groups'|
        ensures Apart(ssa + groups[0], groups'[i])
      {
        assert groups'[i] == groups[i + 1];
        ApartConcat(ssa, groups[0], groups'[i]);
      }
      forall i | 0 <= i < |ts| - 1
        ensures NamesEndIn(ts[1..][i], groups'[i]) && Distinct(Names(ts[1..][i]))
      {
        assert ts[1..][i] == ts[i + 1] && groups'[i] == groups[i + 1];
      }
      JoinAllApart(acc + ts[0], ts[1..], ssa + groups[0], groups');
      assert acc + ts[0] + Flatten(ts[1..]) == acc + Flatten(ts);
    }
  }

  /** The name lists of several tables, concatenated in order. */
  function ConcatNames(ns: seq<seq<string>>): seq<string>
  {
    if ns == [] then [] else ns[0] + ConcatNames(ns[1..])
  }

  function Total(ns: seq<int>): int
  {
    if ns == [] then 0 else ns[0] + Total(ns[1..])
  }

  lemma {:induction false} ConcatLength(ns: seq<seq<string>>, lengths: seq<int>)
    requires |lengths| == |ns| && forall k :: 0 <= k < |ns| ==> |ns[k]| == lengths[k]
    ensures |ConcatNames(ns)| == Total(lengths)
  {
    if ns != [] {
      assert forall k :: 0 <= k < |ns| - 1 ==> ns[1..][k] == ns[k + 1] && lengths[1..][k] == lengths[k + 1];
      ConcatLength(ns[1..], lengths[1..]);
    }
  }

  lemma {:induction false} NamesFlatten(ts: seq<Row>, ns: seq<seq<string>>)
    requires |ns| == |ts| && forall i :: 0 <= i < |ts| ==> Names(ts[i]) == ns[i]
    ensures Names(Flatten(ts)) == ConcatNames(ns)
  {
    if ts != [] {
      assert forall i :: 0 <= i < |ts| - 1 ==> ts[1..][i] == ts[i + 1] && ns[1..][i] == ns[i + 1];
      NamesFlatten(ts[1..], ns[1..]);
      NamesAppend(ts[0], Flatten(ts[1..]));
    }
  }

  // ---------------------------------------------------------------------------
  // Frames: a DataFrame with the default index 0..height-1.

  datatype Frame = Frame(height: nat, columns: map<string, seq<real>>)
  {
    /** Every column has one value per row. */
    ghost predicate Valid()
    {
      forall c :: c in columns ==> |columns[c]| == height
    }

    /** The frame has every column in names. */
    predicate Has(names: seq<string>)
    {
      forall i :: 0 <= i < |names| ==> names[i] in columns
    }
  }

  /** `df[names]`: the frame restricted to the listed columns. */
  function Select(f: Frame, names: seq<string>): (g: Frame)
    requires f.Valid() && f.Has(names)
    ensures g.Valid() && g.height == f.height && g.Has(names)
    ensures forall i :: 0 <= i < |names| ==> g.columns[names[i]] == f.columns[names[i]]
    ensures g.columns.Keys == set i | 0 <= i < |names| :: names[i]
  {
    Frame(f.height, map c | c in set i | 0 <= i < |names| :: names[i] :: f.columns[c])
  }

  /** Rows lo..hi-1 of f, re-indexed from 0 (`reset_index(drop=True)`): row k of the
      result is row lo + k of f, in every column. */
  function RowsReindexed(f: Frame, lo: nat, hi: nat): (g: Frame)
    requires f.Valid() && lo <= hi <= f.height
    ensures g.Valid() && g.height == hi - lo && g.columns.Keys == f.columns.Keys
    ensures forall c, k :: c in f.columns && 0 <= k < hi - lo ==> g.columns[c][k] == f.columns[c][lo + k]
  {
    Frame(hi - lo, map c | c in f.columns :: f.columns[c][lo..hi])
  }

  /** `df[name] = col`: a new or replaced column. */
  function WithColumn(f: Frame, name: string, col: seq<real>): (g: Frame)
    requires f.Valid() && |col| == f.height
    ensures g.Valid() && g.height == f.height && g.columns == f.columns[name := col]
  {
    Frame(f.height, f.columns[name := col])
  }
}
