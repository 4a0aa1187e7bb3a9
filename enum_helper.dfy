/** EnumMapper, a bidirectional map between the constants of two
    libraries, and EnumNames, which names the values of an enumeration
    with a short and a long name. Lookups of absent keys throw
    EnumException. */
module EnumHelper {
  import opened Wrappers

  /** EnumException */
  datatype Failure = EnumError

  /** The two views of a boost::bimap. */
  datatype Bimap<L, R> = Bimap(left: map<L, R>, right: map<R, L>)

  /** The views are mutual inverses. */
  ghost predicate Bijective<L, R>(b: Bimap<L, R>) {
    (forall l :: l in b.left ==> b.left[l] in b.right && b.right[b.left[l]] == l)
    && (forall r :: r in b.right ==> b.right[r] in b.left && b.left[b.right[r]] == r)
  }

  /** add(left, right): boost::bimap's insert, which refuses a pair whose
      key is taken on either side. */
  function Added<L, R>(b: Bimap<L, R>, l: L, r: R): Bimap<L, R> {
    if l in b.left || r in b.right then b
    else Bimap(b.left[l := r], b.right[r := l])
  }

  /** getLeft(keyRight) and getRight(keyLeft) */
  function GetLeft<L, R>(b: Bimap<L, R>, key: R): (res: Result<L, Failure>)
    ensures res.Err? <==> key !in b.right
  {
    if key in b.right then Ok(b.right[key]) else Err(EnumError)
  }

  function GetRight<L, R>(b: Bimap<L, R>, key: L): (res: Result<R, Failure>)
    ensures res.Err? <==> key !in b.left
  {
    if key in b.left then Ok(b.left[key]) else Err(EnumError)
  }

  /** Adding keeps the views inverse. */
  lemma AddedBijective<L, R>(b: Bimap<L, R>, l: L, r: R)
    requires Bijective(b)
    ensures Bijective(Added(b, l, r))
  {
    if !(l in b.left || r in b.right) {
      var a := Added(b, l, r);
      forall x | x in a.left
        ensures a.left[x] in a.right && a.right[a.left[x]] == x
      {
        if x != l {
          assert a.left[x] == b.left[x] && b.left[x] != r;
        }
      }
      forall y | y in a.right
        ensures a.right[y] in a.left && a.left[a.right[y]] == y
      {
        if y != r {
          assert a.right[y] == b.right[y] && b.right[y] != l;
        }
      }
    }
  }

  /** A pair with both keys fresh is found from either side afterwards and
      every other lookup is as before; a pair with a taken key changes
      nothing. */
  lemma AddedFound<L, R>(b: Bimap<L, R>, l: L, r: R, l': L, r': R)
    ensures l !in b.left && r !in b.right ==>
      GetRight(Added(b, l, r), l) == Ok(r) && GetLeft(Added(b, l, r), r) == Ok(l)
    ensures l' != l ==> GetRight(Added(b, l, r), l') == GetRight(b, l')
    ensures r' != r ==> GetLeft(Added(b, l, r), r') == GetLeft(b, r')
    ensures l in b.left || r in b.right ==> Added(b, l, r) == b
  {
  }

  /** In a bijective map each lookup undoes the other. */
  lemma {:induction false} LookupsInverse<L, R>(b: Bimap<L, R>, l: L, r: R)
    requires Bijective(b)
    ensures GetRight(b, l) == Ok(r) <==> GetLeft(b, r) == Ok(l)
  {
    if GetRight(b, l) == Ok(r) {
      assert b.left[l] == r;
    }
    if GetLeft(b, r) == Ok(l) {
      assert b.right[r] == l;
    }
  }

  /** EnumMapper<TLeft, TRight> */
  class EnumMapper<L(==), R(==)> {
    var left: map<L, R>
    var right: map<R, L>

    function Current(): Bimap<L, R>
      reads this
    {
      Bimap(left, right)
    }

    constructor ()
      ensures Current() == Bimap(map[], map[]) && Bijective(Current())
    {
      left, right := map[], map[];
    }

    method Add(l: L, r: R)
      modifies this
      ensures Current() == Added(old(Current()), l, r)
    {
      if !(l in left || r in right) {
        left := left[l := r];
        right := right[r := l];
      }
    }
  }

  /** A std::map<TEnum, std::string>: its entries in ascending key order,
      the enumeration values being integers. */
  type NameMap = seq<(int, string)>

  ghost predicate Sorted(m: NameMap) {
    forall i, j :: 0 <= i < j < |m| ==> m[i].0 < m[j].0
  }

  function KeysOf(m: NameMap): set<int> {
    set i | 0 <= i < |m| :: m[i].0
  }

  /** map::find */
  function Find(m: NameMap, key: int): (r: Option<string>)
    ensures r.None? <==> key !in KeysOf(m)
    ensures r.Some? ==> exists i :: 0 <= i < |m| && m[i] == (key, r.value)
  {
    if m == [] then None
    else if m[0].0 == key then Some(m[0].1)
    else
      var r := Find(m[1..], key);
      assert KeysOf(m) == {m[0].0} + KeysOf(m[1..]) by {
        assert forall i :: 0 < i < |m| ==> m[i].0 == m[1..][i - 1].0;
      }
      if r.Some? then
        var i :| 0 <= i < |m[1..]| && m[1..][i] == (key, r.value);
        assert m[i + 1] == (key, r.value);
        r
      else r
  }

  /** With distinct keys, find yields the name stored with the key. */
  lemma {:induction false} FindAt(m: NameMap, i: nat)
    requires Sorted(m) && i < |m|
    ensures Find(m, m[i].0) == Some(m[i].1)
  {
    var r := Find(m, m[i].0);
    assert m[i].0 in KeysOf(m);
    var j :| 0 <= j < |m| && m[j] == (m[i].0, r.value);
    assert j == i;
  }

  /** Where map::insert puts a new key: after every smaller key. */
  function Position(m: NameMap, key: int): (p: nat)
    ensures p <= |m| && forall i :: 0 <= i < p ==> m[i].0 < key
    ensures Sorted(m) ==> forall i :: p <= i < |m| ==> m[i].0 >= key
  {
    if m == [] || m[0].0 >= key then 0
    else
      var p := Position(m[1..], key);
      assert forall i :: 1 <= i <= p ==> m[i].0 == m[1..][i - 1].0;
      p + 1
  }

  /** map::insert of a new key. */
  function Inserted(m: NameMap, key: int, name: string): (r: NameMap)
    requires Sorted(m) && key !in KeysOf(m)
    ensures Sorted(r) && |r| == |m| + 1 && KeysOf(r) == KeysOf(m) + {key}
  {
    var p := Position(m, key);
    NotAKey(m, key);
    SpliceEntries(m, p, (key, name));
    SpliceKeys(m, p, (key, name));
    m[..p] + [(key, name)] + m[p..]
  }

  lemma NotAKey(m: NameMap, key: int)
    requires key !in KeysOf(m)
    ensures forall i :: 0 <= i < |m| ==> m[i].0 != key
  {
    forall i | 0 <= i < |m|
      ensures m[i].0 != key
    {
      assert m[i].0 in KeysOf(m);
    }
  }

  /** The entries of m with e put at position p. */
  lemma SpliceEntries(m: NameMap, p: nat, e: (int, string))
    requires p <= |m|
    ensures var r := m[..p] + [e] + m[p..];
      |r| == |m| + 1
      && forall i :: 0 <= i < |r| ==> r[i] == if i < p then m[i] else if i == p then e else m[i - 1]
  {
  }

  lemma SpliceKeys(m: NameMap, p: nat, e: (int, string))
    requires p <= |m|
    ensures KeysOf(m[..p] + [e] + m[p..]) == KeysOf(m) + {e.0}
  {
    var r := m[..p] + [e] + m[p..];
    SpliceEntries(m, p, e);
    forall k | k in KeysOf(r)
      ensures k in KeysOf(m) + {e.0}
    {
      var i :| 0 <= i < |r| && r[i].0 == k;
      if i < p {
        assert m[i].0 == k;
      } else if i > p {
        assert m[i - 1].0 == k;
      }
    }
    forall k | k in KeysOf(m)
      ensures k in KeysOf(r)
    {
      var i :| 0 <= i < |m| && m[i].0 == k;
      if i < p {
        assert r[i].0 == k;
      } else {
        assert r[i + 1].0 == k;
      }
    }
    assert r[p].0 == e.0;
  }

  /** The entries of an insertion: the smaller keys, the new entry, the
      rest. */
  lemma InsertedAt(m: NameMap, key: int, name: string, i: nat)
    requires Sorted(m) && key !in KeysOf(m) && i < |m|
    ensures var p := Position(m, key);
      Inserted(m, key, name)[p] == (key, name)
      && Inserted(m, key, name)[if i < p then i else i + 1] == m[i]
  {
  }

  /** After inserting a new key it maps to its name and every other key to
      what it mapped to before. */
  lemma InsertedFinds(m: NameMap, key: int, name: string, other: int)
    requires Sorted(m) && key !in KeysOf(m)
    ensures Find(Inserted(m, key, name), key) == Some(name)
    ensures other != key ==> Find(Inserted(m, key, name), other) == Find(m, other)
  {
    InsertedFindsKey(m, key, name);
    if other != key {
      InsertedFindsOther(m, key, name, other);
    }
  }

  lemma InsertedFindsKey(m: NameMap, key: int, name: string)
    requires Sorted(m) && key !in KeysOf(m)
    ensures Find(Inserted(m, key, name), key) == Some(name)
  {
    var p := Position(m, key);
    SpliceEntries(m, p, (key, name));
    FindAt(Inserted(m, key, name), p);
  }

  lemma InsertedFindsOther(m: NameMap, key: int, name: string, other: int)
    requires Sorted(m) && key !in KeysOf(m) && other != key
    ensures Find(Inserted(m, key, name), other) == Find(m, other)
  {
    var r := Inserted(m, key, name);
    if other in KeysOf(m) {
      var p := Position(m, key);
      var i :| 0 <= i < |m| && m[i].0 == other;
      FindAt(m, i);
      SpliceEntries(m, p, (key, name));
      FindAt(r, if i < p then i else i + 1);
    } else {
      assert other !in KeysOf(r);
    }
  }

  /** shortNames_ and longNames_ */
  datatype Names = Names(shortNames: NameMap, longNames: NameMap)

  /** Both tables are ordered maps over the same values. */
  ghost predicate Consistent(n: Names) {
    Sorted(n.shortNames) && Sorted(n.longNames) && KeysOf(n.shortNames) == KeysOf(n.longNames)
  }

  /** add(value, shortName, longName): EnumException when the value is
      already named, otherwise both names stored. */
  function NamesAdded(n: Names, value: int, shortName: string, longName: string): (r: Result<Names, Failure>)
    requires Consistent(n)
    ensures r.Ok? ==> Consistent(r.value)
  {
    if value in KeysOf(n.shortNames) then Err(EnumError)
    else Ok(Names(Inserted(n.shortNames, value, shortName), Inserted(n.longNames, value, longName)))
  }

  /** findName(value, map), behind getShortName and getLongName. */
  function FindName(value: int, m: NameMap): (r: Result<string, Failure>)
    ensures r.Err? <==> value !in KeysOf(m)
  {
    match Find(m, value)
    case Some(name) => Ok(name)
    case None => Err(EnumError)
  }

  /** A value added under fresh names is found by both, a second add of
      the same value throws, and the names of other values are kept. */
  lemma NamesAddedFinds(n: Names, value: int, shortName: string, longName: string, other: int)
    requires Consistent(n)
    ensures var r := NamesAdded(n, value, shortName, longName);
      r.Err? <==> value in KeysOf(n.shortNames)
    ensures var r := NamesAdded(n, value, shortName, longName);
      r.Ok? ==> (FindName(value, r.value.shortNames) == Ok(shortName)
        && FindName(value, r.value.longNames) == Ok(longName)
        && (other != value ==> FindName(other, r.value.shortNames) == FindName(other, n.shortNames))
        && (other != value ==> FindName(other, r.value.longNames) == FindName(other, n.longNames)))
  {
    if value !in KeysOf(n.shortNames) {
      InsertedFinds(n.shortNames, value, shortName, other);
      InsertedFinds(n.longNames, value, longName, other);
    }
  }

  /** Every value has a short name exactly when it has a long one. */
  lemma NamesPaired(n: Names, value: int)
    requires Consistent(n)
    ensures FindName(value, n.shortNames).Ok? <==> FindName(value, n.longNames).Ok?
  {
  }

  /** EnumNames<TEnum> */
  class EnumNames {
    var shortNames: NameMap
    var longNames: NameMap

    function Current(): Names
      reads this
    {
      Names(shortNames, longNames)
    }

    constructor ()
      ensures Current() == Names([], []) && Consistent(Current())
    {
      shortNames, longNames := [], [];
    }

    method Add(value: int, shortName: string, longName: string) returns (r: Outcome<Failure>)
      requires Consistent(Current())
      modifies this
      ensures Consistent(Current())
      ensures var added := NamesAdded(old(Current()), value, shortName, longName);
        if added.Ok? then r.Pass? && Current() == added.value else r.Fail? && Current() == old(Current())
    {
      if value in KeysOf(shortNames) {
        return Fail(EnumError);
      }
      shortNames := Inserted(shortNames, value, shortName);
      longNames := Inserted(longNames, value, longName);
      return Pass;
    }

    /** getShortName(value) and getLongName(value) */
    function GetShortName(value: int): (r: Result<string, Failure>)
      reads this
      ensures r.Err? <==> value !in KeysOf(shortNames)
    {
      FindName(value, shortNames)
    }

    function GetLongName(value: int): (r: Result<string, Failure>)
      reads this
      ensures r.Err? <==> value !in KeysOf(longNames)
    {
      FindName(value, longNames)
    }

    /** getValue(shortName): the first value in map order, which is the
        smallest, carrying that short name; EnumException if none does. */
    method GetValue(shortName: string) returns (r: Result<int, Failure>)
      requires Sorted(shortNames)
      ensures r.Err? <==> forall i :: 0 <= i < |shortNames| ==> shortNames[i].1 != shortName
      ensures r.Err? ==> r.error == EnumError
      ensures r.Ok? ==> Find(shortNames, r.value) == Some(shortName)
      ensures r.Ok? ==> forall i :: 0 <= i < |shortNames| && shortNames[i].1 == shortName ==> r.value <= shortNames[i].0
    {
      var i := 0;
      while i < |shortNames|
        invariant i <= |shortNames|
        invariant forall j :: 0 <= j < i ==> shortNames[j].1 != shortName
      {
        if shortNames[i].1 == shortName {
          FindAt(shortNames, i);
          return Ok(shortNames[i].0);
        }
        i := i + 1;
      }
      return Err(EnumError);
    }
  }
}
