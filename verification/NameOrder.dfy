/** Go's byte-wise string order and `sort.Strings`, with the uniqueness that makes output deterministic. */
module NameOrder {
  import opened Bytes

  type name = seq<byte>

  predicate Less(a: name, b: name) {
    b != [] && (a == [] || a[0] < b[0] || (a[0] == b[0] && Less(a[1..], b[1..])))
  }

  lemma {:induction false} LessTotal(a: name, b: name)
    ensures Less(a, b) || a == b || Less(b, a)
  {
    if a != [] && b != [] && a[0] == b[0] {
      LessTotal(a[1..], b[1..]);
      assert a == [a[0]] + a[1..] && b == [b[0]] + b[1..];
    }
  }

  lemma {:induction false} LessAsymmetric(a: name, b: name)
    requires Less(a, b)
    ensures !Less(b, a) && a != b
  {
    if a != [] && a[0] == b[0] {
      LessAsymmetric(a[1..], b[1..]);
    }
  }

  lemma {:induction false} LessTransitive(a: name, b: name, c: name)
    requires Less(a, b) && Less(b, c)
    ensures Less(a, c)
  {
    if a != [] && a[0] == b[0] && b[0] == c[0] {
      LessTransitive(a[1..], b[1..], c[1..]);
    }
  }

  /** Strictly increasing: sorted, and no name twice. */
  predicate Increasing(names: seq<name>) {
    forall i, j | 0 <= i < j < |names| :: Less(names[i], names[j])
  }

  function Elements(names: seq<name>): set<name> {
    set n | n in names
  }

  /** `names` lists exactly the set `s`, in increasing order. */
  predicate Lists(names: seq<name>, s: set<name>) {
    Increasing(names) && Elements(names) == s
  }

  lemma TailLists(names: seq<name>)
    requires Increasing(names) && names != []
    ensures names[0] !in names[1..] && Elements(names[1..]) == Elements(names) - {names[0]}
  {
    forall j | 1 <= j < |names|
      ensures names[j] != names[0]
    {
      LessAsymmetric(names[0], names[j]);
    }
    assert forall n :: n in names[1..] <==> exists j :: 1 <= j < |names| && names[j] == n;
  }

  lemma HeadsAgree(a: seq<name>, b: seq<name>, s: set<name>)
    requires Lists(a, s) && Lists(b, s) && a != [] && b != []
    ensures a[0] == b[0]
  {
    assert a[0] in s && b[0] in s;
    if a[0] != b[0] {
      var i :| 0 <= i < |a| && a[i] == b[0];
      var j :| 0 <= j < |b| && b[j] == a[0];
      LessAsymmetric(a[0], a[i]);
      assert false;
    }
  }

  /** A set has at most one increasing listing, so the order a map is walked in cannot show. */
  lemma {:induction false} ListingUnique(a: seq<name>, b: seq<name>, s: set<name>)
    requires Lists(a, s) && Lists(b, s)
    ensures a == b
  {
    assert a != [] ==> a[0] in Elements(a);
    assert b != [] ==> b[0] in Elements(b);
    if a != [] {
      HeadsAgree(a, b, s);
      TailLists(a);
      TailLists(b);
      ListingUnique(a[1..], b[1..], s - {a[0]});
      assert a == [a[0]] + a[1..] && b == [b[0]] + b[1..];
    }
  }

  method InsertName(names: seq<name>, n: name) returns (r: seq<name>)
    requires Increasing(names) && n !in names
    ensures Lists(r, Elements(names) + {n})
  {
    var k := 0;
    while k < |names| && Less(names[k], n)
      invariant 0 <= k <= |names|
      invariant forall i | 0 <= i < k :: Less(names[i], n)
    {
      k := k + 1;
    }
    r := names[..k] + [n] + names[k..];
    forall i | k <= i < |names|
      ensures Less(n, names[i])
    {
      LessTotal(names[k], n);
      if k < i {
        LessTransitive(n, names[k], names[i]);
      }
    }
    assert forall m :: m in r <==> m in names || m == n;
  }

  /** `sort.Strings`: any walk of the set becomes its increasing listing. */
  method SortNames(walk: seq<name>) returns (sorted: seq<name>)
    requires forall i, j | 0 <= i < j < |walk| :: walk[i] != walk[j]
    ensures Lists(sorted, Elements(walk))
  {
    sorted := [];
    for k := 0 to |walk|
      invariant Lists(sorted, Elements(walk[..k]))
    {
      assert walk[k] !in walk[..k];
      assert walk[..k + 1] == walk[..k] + [walk[k]];
      assert walk[k] !in Elements(walk[..k]);
      sorted := InsertName(sorted, walk[k]);
      assert Elements(walk[..k + 1]) == Elements(walk[..k]) + {walk[k]};
    }
    assert walk[..|walk|] == walk;
  }
}
