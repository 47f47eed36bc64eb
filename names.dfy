/**
 * Control names: stripping the test-status suffix from a folder name (`cleanControlName`) and
 * matching a tested control's name against the documented controls (`compararSheets`).
 */
module ControlNames {
  import opened Wrappers
  import opened Text
  import opened Grid

  /** The status suffixes, in the order `cleanControlName` tries them. */
  const Suffixes: seq<string> := ["_PASA", "_FALLA", "_INCONCLUSO"]

  /** Tries the suffixes from index k on; the first one found cuts the name at its first occurrence. */
  function CleanFrom(name: string, k: nat): (r: string)
    requires k <= |Suffixes|
    decreases |Suffixes| - k
    ensures |r| <= |name| && r == name[..|r|]
    ensures r != name ==> exists i :: k <= i < |Suffixes| && Contains(name, Suffixes[i])
    ensures (forall i :: k <= i < |Suffixes| ==> !Contains(name, Suffixes[i])) ==> r == name
  {
    if k == |Suffixes| then name
    else
      var index := IndexOf(name, Suffixes[k]);
      if index != -1 then name[..index] else CleanFrom(name, k + 1)
  }

  /**
   * `cleanControlName`: the result is always a prefix of the name, and a name carrying none of
   * the suffixes comes back unchanged.
   */
  function CleanControlName(name: string): (r: string)
    ensures |r| <= |name| && r == name[..|r|]
    ensures (forall i :: 0 <= i < |Suffixes| ==> !Contains(name, Suffixes[i])) ==> r == name
    ensures r != name ==> exists i :: 0 <= i < |Suffixes| && Contains(name, Suffixes[i])
  {
    CleanFrom(name, 0)
  }

  /** The earliest suffix in the list wins, wherever it sits: the name is cut at its first occurrence. */
  lemma CleanCutsAtFirstListedSuffix(name: string, k: nat)
    requires k < |Suffixes| && Contains(name, Suffixes[k])
    requires forall i :: 0 <= i < k ==> !Contains(name, Suffixes[i])
    ensures CleanControlName(name) == name[..IndexOf(name, Suffixes[k])]
  {
    if k == 0 {
    } else if k == 1 {
      assert CleanFrom(name, 0) == CleanFrom(name, 1);
    } else {
      assert CleanFrom(name, 0) == CleanFrom(name, 1) == CleanFrom(name, 2);
    }
  }

  /** Every suffix starts with '_' and has no other '_'. */
  predicate UnderscoreOnlyFirst(p: string)
  {
    |p| > 0 && p[0] == '_' && forall j :: 0 < j < |p| ==> p[j] != '_'
  }

  /**
   * A pattern whose only '_' is its first character cannot straddle the junction of `base`
   * and a `tag` that starts with '_': any occurrence in base + tag lies inside base or inside tag.
   */
  lemma {:induction false} NoStraddle(base: string, tag: string, p: string, j: nat)
    requires UnderscoreOnlyFirst(p) && |tag| > 0 && tag[0] == '_'
    requires j < |base| < j + |p|
    ensures !OccursAt(base + tag, p, j)
  {
    var k := |base| - j;
    assert 0 < k < |p| && p[k] != '_';
    assert (base + tag)[j + k] == '_';
  }

  lemma {:induction false} NotInConcat(base: string, tag: string, p: string)
    requires UnderscoreOnlyFirst(p) && |tag| > 0 && tag[0] == '_'
    requires !Contains(base, p) && !Contains(tag, p)
    ensures !Contains(base + tag, p)
  {
    var s := base + tag;
    if Contains(s, p) {
      var j := IndexOf(s, p);
      assert OccursAt(s, p, j);
      if j + |p| <= |base| {
        var window, part := s[j..j + |p|], base[j..j + |p|];
        forall q | 0 <= q < |p| ensures window[q] == part[q] {
          assert s[j + q] == base[j + q];
        }
        assert window == part;
        assert OccursAt(base, p, j);
        ContainsIff(base, p);
      } else if j < |base| {
        NoStraddle(base, tag, p, j);
      } else {
        var window, part := s[j..j + |p|], tag[j - |base|..j - |base| + |p|];
        forall q | 0 <= q < |p| ensures window[q] == part[q] {
          assert s[j + q] == tag[j - |base| + q];
        }
        assert window == part;
        assert OccursAt(tag, p, j - |base|);
        ContainsIff(tag, p);
      }
    }
  }

  lemma {:induction false} FirstAtJunction(base: string, tag: string)
    requires UnderscoreOnlyFirst(tag) && !Contains(base, tag)
    ensures IndexOf(base + tag, tag) == |base|
  {
    var s := base + tag;
    assert OccursAt(s, tag, |base|) by { assert s[|base|..|base| + |tag|] == tag; }
    forall j | 0 <= j < |base| ensures !OccursAt(s, tag, j) {
      if j + |tag| <= |base| {
        if OccursAt(s, tag, j) {
          assert s[j..j + |tag|] == base[j..j + |tag|];
          assert OccursAt(base, tag, j);
          ContainsIff(base, tag);
        }
      } else {
        NoStraddle(base, tag, tag, j);
      }
    }
    var r := IndexOf(s, tag);
    assert r != -1;
    assert r == |base|;
  }

  lemma SuffixShapes()
    ensures forall i :: 0 <= i < |Suffixes| ==> UnderscoreOnlyFirst(Suffixes[i])
  {
  }

  /** No suffix occurs inside another one. */
  lemma SuffixesDoNotNest(i: nat, k: nat)
    requires i < |Suffixes| && k < |Suffixes| && i != k
    ensures !Contains(Suffixes[k], Suffixes[i])
  {
    SuffixShapes();
    var t, p := Suffixes[k], Suffixes[i];
    assert Suffixes[0][1] == 'P' && Suffixes[1][1] == 'F' && Suffixes[2][1] == 'I';
    assert t[1] != p[1];
    forall j: nat | j + |p| <= |t| ensures !OccursAt(t, p, j) {
      if j == 0 {
        assert t[j..j + |p|][1] == t[1];
      } else {
        assert t[j..j + |p|][0] == t[j];
      }
    }
    ContainsIff(t, p);
  }

  /**
   * Round trip: a control name tagged with a status suffix is recovered by `cleanControlName`,
   * provided the name itself carries neither that suffix nor one tried before it.
   */
  lemma {:induction false} CleanRemovesStatusTag(base: string, k: nat)
    requires k < |Suffixes|
    requires forall i :: 0 <= i <= k ==> !Contains(base, Suffixes[i])
    ensures CleanControlName(base + Suffixes[k]) == base
  {
    SuffixShapes();
    var s := base + Suffixes[k];
    forall i | 0 <= i < k ensures !Contains(s, Suffixes[i]) {
      SuffixesDoNotNest(i, k);
      NotInConcat(base, Suffixes[k], Suffixes[i]);
    }
    FirstAtJunction(base, Suffixes[k]);
    ContainsIff(s, Suffixes[k]);
    assert OccursAt(s, Suffixes[k], |base|);
    CleanCutsAtFirstListedSuffix(s, k);
    assert s[..|base|] == base;
  }

  /**
   * `cleanControlName` is not idempotent: "X_FALLA_PASA" is cut at "_PASA" (tried first) and
   * gives "X_FALLA", which a second pass cuts again to "X".
   */
  lemma CleanNotIdempotent()
    ensures CleanControlName("X_FALLA_PASA") == "X_FALLA"
    ensures CleanControlName("X_FALLA") == "X"
  {
    SuffixShapes();
    assert "X_FALLA" == "X" + Suffixes[1];
    assert "X_FALLA_PASA" == "X_FALLA" + Suffixes[0];
    forall i | 0 <= i < |Suffixes| ensures !Contains("X", Suffixes[i]) {
      assert IndexFrom("X", Suffixes[i], 0) == -1;
    }
    SuffixesDoNotNest(0, 1);
    NotInConcat("X", Suffixes[1], Suffixes[0]);
    CleanRemovesStatusTag("X", 1);
    CleanRemovesStatusTag("X_FALLA", 0);
  }

  /**
   * The match test of `compararSheets`: trimmed, lower-cased names are equal, or the documented
   * name contains the tested one.
   */
  predicate Matches(tested: string, key: string)
  {
    Norm(tested) == Norm(key) || Contains(Norm(key), Norm(tested))
  }

  /** Equal names always match. */
  lemma MatchesSame(tested: string, key: string)
    requires tested == key
    ensures Matches(tested, key)
  {
  }

  /** Equality is only the special case: matching is containment of the normalised names. */
  lemma MatchIsContainment(tested: string, key: string)
    ensures Matches(tested, key) <==> Contains(Norm(key), Norm(tested))
  {
    if Norm(tested) == Norm(key) {
      ContainsSelf(Norm(key));
    }
  }

  /** One documented control in the name pool: name (column C), id (A) and first tab (B). */
  datatype PoolEntry = PoolEntry(key: string, id: string, tab: string)

  /**
   * `sheet2Map[key] = {...}` on a JavaScript object: an existing key keeps its place and takes
   * the new value, a new key goes last.
   */
  function Put(pool: seq<PoolEntry>, e: PoolEntry): (r: seq<PoolEntry>)
    ensures |r| == |pool| || r == pool + [e]
  {
    if pool == [] then [e]
    else if pool[0].key == e.key then [e] + pool[1..]
    else [pool[0]] + Put(pool[1..], e)
  }

  function Keys(pool: seq<PoolEntry>): (ks: seq<string>)
    ensures |ks| == |pool|
    ensures forall p :: 0 <= p < |pool| ==> ks[p] == pool[p].key
  {
    seq(|pool|, p requires 0 <= p < |pool| => pool[p].key)
  }

  /** The first occurrences of xs, in order: the order in which an object's keys were inserted. */
  function Dedup(xs: seq<string>): seq<string>
  {
    if xs == [] then []
    else
      var d := Dedup(xs[..|xs| - 1]);
      if xs[|xs| - 1] in d then d else d + [xs[|xs| - 1]]
  }

  predicate DistinctKeys(pool: seq<PoolEntry>)
  {
    forall p, q :: 0 <= p < q < |pool| ==> pool[p].key != pool[q].key
  }

  lemma {:induction false} PutKeys(pool: seq<PoolEntry>, e: PoolEntry)
    requires DistinctKeys(pool)
    ensures Keys(Put(pool, e)) == if e.key in Keys(pool) then Keys(pool) else Keys(pool) + [e.key]
    ensures forall p :: 0 <= p < |pool| && pool[p].key != e.key ==> Put(pool, e)[p] == pool[p]
    ensures forall p :: 0 <= p < |Put(pool, e)| && Put(pool, e)[p].key == e.key ==> Put(pool, e)[p] == e
    decreases |pool|
  {
    if pool != [] && pool[0].key != e.key {
      PutKeys(pool[1..], e);
      assert Keys(pool) == [pool[0].key] + Keys(pool[1..]);
      assert e.key in Keys(pool) <==> e.key in Keys(pool[1..]);
    }
  }

  /** Column C of rows 1..n-1 of the documented inventory. */
  function NameColumn(data: Cells, n: nat): (ks: seq<string>)
    ensures |ks| == if n == 0 then 0 else n - 1
  {
    if n <= 1 then [] else NameColumn(data, n - 1) + [Get(data, n - 1, 2)]
  }

  function EntryOf(data: Cells, j: nat): PoolEntry
  {
    PoolEntry(Get(data, j, 2), Get(data, j, 0), Get(data, j, 1))
  }

  /** `sheet2Map` after the loop `for (j = 1; j < n; j++)` over the documented inventory. */
  function BuildPool(data: Cells, n: nat): seq<PoolEntry>
  {
    if n <= 1 then [] else Put(BuildPool(data, n - 1), EntryOf(data, n - 1))
  }

  lemma {:induction false} DedupDistinct(xs: seq<string>)
    ensures forall p, q :: 0 <= p < q < |Dedup(xs)| ==> Dedup(xs)[p] != Dedup(xs)[q]
  {
    if xs != [] {
      DedupDistinct(xs[..|xs| - 1]);
    }
  }

  /** A name that occurs first is kept first. */
  lemma {:induction false} DedupHead(xs: seq<string>)
    requires xs != []
    ensures Dedup(xs) != [] && Dedup(xs)[0] == xs[0]
    decreases |xs|
  {
    if |xs| > 1 {
      DedupHead(xs[..|xs| - 1]);
    }
  }

  /** Entry k of the name column is column C of row k + 1. */
  lemma {:induction false} NameColumnAt(data: Cells, n: nat, k: nat)
    requires k + 1 < n
    ensures NameColumn(data, n)[k] == Get(data, k + 1, 2)
    decreases n
  {
    if k + 2 < n {
      NameColumnAt(data, n - 1, k);
    }
  }

  /** The `for (var j = 1; j < data2.length; j++)` loop filling `sheet2Map`. */
  method CollectPool(data: Cells) returns (pool: seq<PoolEntry>)
    ensures pool == BuildPool(data, |data|)
  {
    pool := [];
    var j := 1;
    while j < |data|
      invariant 1 <= j && (j <= |data| || j == 1)
      invariant pool == BuildPool(data, j)
    {
      pool := Put(pool, EntryOf(data, j));
      j := j + 1;
    }
  }

  /**
   * The pool's keys are the inventory's names without repeats, in order of first appearance;
   * in particular no name appears twice in the pool.
   */
  lemma {:induction false} PoolKeyOrder(data: Cells, n: nat)
    ensures Keys(BuildPool(data, n)) == Dedup(NameColumn(data, n))
    ensures DistinctKeys(BuildPool(data, n))
  {
    if n > 1 {
      PoolKeyOrder(data, n - 1);
      PutKeys(BuildPool(data, n - 1), EntryOf(data, n - 1));
      var xs := NameColumn(data, n);
      assert xs[..|xs| - 1] == NameColumn(data, n - 1);
    }
    DedupDistinct(NameColumn(data, n));
  }

  /** The last row of 1..n-1 whose name is k, or -1. */
  function LastRowNamed(data: Cells, n: nat, k: string): (j: int)
    ensures j == -1 || (1 <= j < n && Get(data, j, 2) == k)
  {
    if n <= 1 then -1
    else if Get(data, n - 1, 2) == k then n - 1
    else LastRowNamed(data, n - 1, k)
  }

  /** A later duplicate name overwrites the earlier one: each pool entry comes from the last row with its name. */
  lemma {:induction false} PoolLastWins(data: Cells, n: nat, p: nat)
    requires p < |BuildPool(data, n)|
    ensures LastRowNamed(data, n, BuildPool(data, n)[p].key) != -1
    ensures BuildPool(data, n)[p] == EntryOf(data, LastRowNamed(data, n, BuildPool(data, n)[p].key))
  {
    var pool := BuildPool(data, n - 1);
    var e := EntryOf(data, n - 1);
    PoolKeyOrder(data, n - 1);
    PutKeys(pool, e);
    if BuildPool(data, n)[p].key != e.key {
      assert p < |pool|;
      assert BuildPool(data, n)[p] == pool[p];
      PoolLastWins(data, n - 1, p);
    }
  }

  /** Which pool entries the tested name matches, in pool order. */
  function MatchFlags(pool: seq<PoolEntry>, tested: string): (flags: seq<bool>)
    ensures |flags| == |pool|
    ensures forall q :: 0 <= q < |pool| ==> flags[q] == Matches(tested, pool[q].key)
  {
    seq(|pool|, q requires 0 <= q < |pool| => Matches(tested, pool[q].key))
  }

  /** The first true flag at index p or later. */
  function FirstTrueFrom(flags: seq<bool>, p: nat): (r: Option<nat>)
    decreases |flags| - p
    ensures r.Some? ==> p <= r.value < |flags| && flags[r.value]
    ensures r.Some? ==> forall q :: p <= q < r.value ==> !flags[q]
    ensures r.None? ==> forall q :: p <= q < |flags| ==> !flags[q]
  {
    if p >= |flags| then None
    else if flags[p] then Some(p)
    else FirstTrueFrom(flags, p + 1)
  }

  /** The first pool entry, in pool order, whose name the tested name matches. */
  function FirstMatch(pool: seq<PoolEntry>, tested: string): (r: Option<nat>)
    ensures r.Some? ==> r.value < |pool| && Matches(tested, pool[r.value].key)
    ensures r.Some? ==> forall q :: 0 <= q < r.value ==> !Matches(tested, pool[q].key)
    ensures r.None? ==> forall q :: 0 <= q < |pool| ==> !Matches(tested, pool[q].key)
  {
    FirstTrueFrom(MatchFlags(pool, tested), 0)
  }

  /** A name that matches the pool's first entry is matched to that entry. */
  lemma FirstMatchHead(pool: seq<PoolEntry>, tested: string)
    requires pool != [] && Matches(tested, pool[0].key)
    ensures FirstMatch(pool, tested) == Some(0)
  {
  }

  /** The `for (sheetName2 in sheet2Map)` loop with its `break`. */
  method FindFirstMatch(pool: seq<PoolEntry>, tested: string) returns (found: Option<nat>)
    ensures found == FirstMatch(pool, tested)
  {
    found := None;
    var p := 0;
    while p < |pool|
      invariant 0 <= p <= |pool|
      invariant FirstTrueFrom(MatchFlags(pool, tested), p) == FirstMatch(pool, tested)
    {
      if Matches(tested, pool[p].key) {
        found := Some(p);
        return;
      }
      p := p + 1;
    }
  }
}
