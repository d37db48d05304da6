/**
 * The achievements screen (src/components/Achievements.tsx): a constant
 * catalog of six achievements, a category filter, the count of unlocked
 * entries for the header and the "Quase lá" list of at most two locked
 * entries that show progress. The `unlocked` flags are part of the
 * constant; nothing here evaluates them, and the `user` prop is not read.
 */
module Achievements {
  import opened Wrappers

  datatype Achievement = Achievement(
    id: nat,
    title: string,
    unlocked: bool,
    category: string,
    points: nat,
    progress: Option<nat>,
    total: Option<nat>)

  const Catalog: seq<Achievement> := [
    Achievement(1, "Primeiro Jejum", true, "Iniciante", 50, None, None),
    Achievement(2, "Guerreiro da Madrugada", true, "Dedicação", 100, None, None),
    Achievement(3, "Streak de Ferro", true, "Consistência", 200, None, None),
    Achievement(4, "Mestre do 16:8", false, "Especialista", 300, Some(7), Some(10)),
    Achievement(5, "Zen Master", false, "Mestre", 500, Some(48), Some(50)),
    Achievement(6, "Jejum Épico", false, "Épico", 750, None, None)
  ]

  /** The category button that shows everything. */
  const AllCategories: string := "Todos"
  const Categories: seq<string> := [AllCategories, "Iniciante", "Dedicação", "Consistência", "Especialista", "Mestre", "Épico"]

  /** `a` is `b` with some elements left out, the rest kept in order. */
  predicate SubsequenceOf<T(==)>(a: seq<T>, b: seq<T>)
    decreases |b|
  {
    if a == [] then true
    else if b == [] then false
    else if a[0] == b[0] then SubsequenceOf(a[1..], b[1..])
    else SubsequenceOf(a, b[1..])
  }

  /** `Array.prototype.filter`: the elements satisfying `p`, in their original order. */
  function Filter<T(==,!new)>(s: seq<T>, p: T -> bool): (r: seq<T>)
    ensures SubsequenceOf(r, s)
    ensures forall i :: 0 <= i < |r| ==> p(r[i])
    ensures forall x :: multiset(r)[x] == if p(x) then multiset(s)[x] else 0
  {
    if s == [] then []
    else
      var rest := Filter(s[1..], p);
      assert s == [s[0]] + s[1..];
      if p(s[0]) then [s[0]] + rest else rest
  }

  /** `Array.prototype.slice(0, n)`. */
  function Take<T>(s: seq<T>, n: nat): (r: seq<T>)
    ensures |r| == if |s| < n then |s| else n
    ensures r == s[..|r|]
  {
    if |s| <= n then s else s[..n]
  }

  lemma {:induction false} PrefixIsSubsequence<T>(a: seq<T>, k: nat)
    requires k <= |a|
    ensures SubsequenceOf(a[..k], a)
    decreases |a|
  {
    if k > 0 {
      assert a[..k][0] == a[0] && a[..k][1..] == a[1..][..k - 1];
      PrefixIsSubsequence(a[1..], k - 1);
    }
  }

  lemma {:induction false} SubsequenceTransitive<T>(a: seq<T>, b: seq<T>, c: seq<T>)
    requires SubsequenceOf(a, b) && SubsequenceOf(b, c)
    ensures SubsequenceOf(a, c)
    decreases |c|
  {
    if a != [] && c != [] {
      if b[0] == c[0] {
        if a[0] == b[0] {
          SubsequenceTransitive(a[1..], b[1..], c[1..]);
        } else {
          SubsequenceTransitive(a, b[1..], c[1..]);
        }
      } else {
        SubsequenceTransitive(a, b, c[1..]);
        Weaken(a, c);
      }
    }
  }

  /** Putting an element in front keeps a subsequence a subsequence. */
  lemma {:induction false} Weaken<T>(x: seq<T>, c: seq<T>)
    requires c != [] && SubsequenceOf(x, c[1..])
    ensures SubsequenceOf(x, c)
    decreases |c|, 0
  {
    if x != [] && x[0] == c[0] {
      DropHead(x, c[1..]);
    }
  }

  lemma {:induction false} DropHead<T>(a: seq<T>, c: seq<T>)
    requires a != [] && SubsequenceOf(a, c)
    ensures SubsequenceOf(a[1..], c)
    decreases |c|, 1
  {
    if a[0] == c[0] {
      Weaken(a[1..], c);
    } else {
      DropHead(a, c[1..]);
      Weaken(a[1..], c);
    }
  }

  /** `filteredAchievements`: everything for "Todos", otherwise the entries of the chosen category. */
  function FilteredAchievements(catalog: seq<Achievement>, selected: string): (r: seq<Achievement>)
    ensures selected == AllCategories ==> r == catalog
    ensures selected != AllCategories ==>
              SubsequenceOf(r, catalog) &&
              (forall i :: 0 <= i < |r| ==> r[i].category == selected) &&
              (forall a :: a in catalog && a.category == selected ==> a in r) &&
              (forall a: Achievement :: a.category == selected ==> multiset(r)[a] == multiset(catalog)[a])
  {
    if selected == AllCategories then catalog
    else
      var r := Filter(catalog, (a: Achievement) => a.category == selected);
      assert forall a :: a in catalog && a.category == selected ==> multiset(r)[a] > 0;
      r
  }

  predicate IsUnlocked(a: Achievement) {
    a.unlocked
  }

  /** `unlockedCount`: how many entries of the catalog are unlocked. */
  function UnlockedCount(catalog: seq<Achievement>): (n: nat)
    ensures n <= |catalog|
    ensures n == |catalog| <==> forall i :: 0 <= i < |catalog| ==> catalog[i].unlocked
    ensures n == |set i | 0 <= i < |catalog| && catalog[i].unlocked|
  {
    FilterAllOrShorter(catalog, IsUnlocked);
    UnlockedFrom(catalog, 0);
    assert catalog[0..] == catalog;
    |Filter(catalog, IsUnlocked)|
  }

  /** The unlocked entries from index `k` on are counted by the indices that hold them. */
  lemma {:induction false} UnlockedFrom(catalog: seq<Achievement>, k: nat)
    requires k <= |catalog|
    ensures |Filter(catalog[k..], IsUnlocked)| == |set i | k <= i < |catalog| && catalog[i].unlocked|
    decreases |catalog| - k
  {
    if k == |catalog| {
      assert catalog[k..] == [];
    } else {
      UnlockedFrom(catalog, k + 1);
      FilterStep(catalog, k);
      IndicesStep(catalog, k);
    }
  }

  lemma FilterStep(catalog: seq<Achievement>, k: nat)
    requires k < |catalog|
    ensures |Filter(catalog[k..], IsUnlocked)| ==
              |Filter(catalog[k + 1..], IsUnlocked)| + if catalog[k].unlocked then 1 else 0
  {
    assert catalog[k..][1..] == catalog[k + 1..];
  }

  lemma IndicesStep(catalog: seq<Achievement>, k: nat)
    requires k < |catalog|
    ensures |set i | k <= i < |catalog| && catalog[i].unlocked| ==
              |set i | k + 1 <= i < |catalog| && catalog[i].unlocked| + if catalog[k].unlocked then 1 else 0
  {
    var here := set i | k <= i < |catalog| && catalog[i].unlocked;
    var rest := set i | k + 1 <= i < |catalog| && catalog[i].unlocked;
    if catalog[k].unlocked {
      assert here == rest + {k};
    } else {
      assert here == rest;
    }
  }

  lemma {:induction false} FilterAllOrShorter<T(!new)>(s: seq<T>, p: T -> bool)
    ensures |Filter(s, p)| <= |s|
    ensures |Filter(s, p)| == |s| <==> forall i :: 0 <= i < |s| ==> p(s[i])
  {
    FilterNoLonger(s, p);
    if forall i :: 0 <= i < |s| ==> p(s[i]) {
      FilterKeepsAll(s, p);
    } else {
      var k :| 0 <= k < |s| && !p(s[k]);
      FilterDropsRejected(s, p, k);
    }
  }

  lemma {:induction false} FilterNoLonger<T(!new)>(s: seq<T>, p: T -> bool)
    ensures |Filter(s, p)| <= |s|
  {
    if s != [] {
      FilterNoLonger(s[1..], p);
    }
  }

  lemma {:induction false} FilterKeepsAll<T(!new)>(s: seq<T>, p: T -> bool)
    requires forall i :: 0 <= i < |s| ==> p(s[i])
    ensures Filter(s, p) == s
  {
    if s != [] {
      assert p(s[0]);
      FilterKeepsAll(s[1..], p);
      assert s == [s[0]] + s[1..];
    }
  }

  lemma {:induction false} FilterDropsRejected<T(!new)>(s: seq<T>, p: T -> bool, k: nat)
    requires k < |s| && !p(s[k])
    ensures |Filter(s, p)| < |s|
  {
    if k == 0 {
      FilterNoLonger(s[1..], p);
    } else {
      assert s[1..][k - 1] == s[k];
      FilterDropsRejected(s[1..], p, k - 1);
    }
  }

  /** The width of the header bar, as a fraction of the whole. */
  function UnlockedRatio(catalog: seq<Achievement>): (r: real)
    requires |catalog| > 0
    ensures 0.0 <= r <= 1.0
    ensures r == 1.0 <==> forall i :: 0 <= i < |catalog| ==> catalog[i].unlocked
  {
    Fraction(UnlockedCount(catalog), |catalog|);
    UnlockedCount(catalog) as real / |catalog| as real
  }

  lemma Fraction(n: nat, d: nat)
    requires 0 < d && n <= d
    ensures 0.0 <= n as real / d as real <= 1.0
    ensures n as real / d as real == 1.0 <==> n == d
  {
    var q, dr := n as real / d as real, d as real;
    assert q * dr == n as real;
    assert q < 0.0 ==> (-q) * dr > 0.0;
    assert q > 1.0 ==> (q - 1.0) * dr > 0.0;
    assert q == 1.0 ==> n as real == dr;
  }

  predicate AlmostUnlocked(a: Achievement) {
    !a.unlocked && a.progress.Some?
  }

  /** The "Quase lá" list: the first two locked entries that carry progress. */
  function AlmostThere(catalog: seq<Achievement>): (r: seq<Achievement>)
    ensures |r| <= 2
    ensures forall i :: 0 <= i < |r| ==> AlmostUnlocked(r[i])
    ensures SubsequenceOf(r, catalog)
    ensures |r| <= |Filter(catalog, AlmostUnlocked)| && r == Filter(catalog, AlmostUnlocked)[..|r|]
    ensures |r| == if |Filter(catalog, AlmostUnlocked)| < 2 then |Filter(catalog, AlmostUnlocked)| else 2
  {
    var candidates := Filter(catalog, AlmostUnlocked);
    var r := Take(candidates, 2);
    PrefixIsSubsequence(candidates, |r|);
    SubsequenceTransitive(r, candidates, catalog);
    r
  }

  /** The catalog's ids are distinct, and every progress has a total it does not exceed. */
  lemma CatalogWellFormed()
    ensures forall i :: 0 <= i < |Catalog| ==> Catalog[i].category in Categories[1..]
    ensures forall i, j :: 0 <= i < j < |Catalog| ==> Catalog[i].id != Catalog[j].id
    ensures forall i :: 0 <= i < |Catalog| ==> Catalog[i].id == i + 1
    ensures forall i :: 0 <= i < |Catalog| && Catalog[i].progress.Some? ==>
              Catalog[i].total.Some? && 0 < Catalog[i].total.value &&
              Catalog[i].progress.value <= Catalog[i].total.value
  {
  }

  /** The header reads "3 de 6". */
  lemma CatalogCounts()
    ensures |Catalog| == 6 && UnlockedCount(Catalog) == 3
  {
    assert Filter(Catalog[5..], IsUnlocked) == [];
    assert Filter(Catalog[4..], IsUnlocked) == [];
    assert Filter(Catalog[3..], IsUnlocked) == [];
    assert Catalog[2..][1..] == Catalog[3..];
    assert Filter(Catalog[2..], IsUnlocked) == [Catalog[2]] + Filter(Catalog[3..], IsUnlocked);
    assert |Filter(Catalog[2..], IsUnlocked)| == 1;
    assert Catalog[1..][1..] == Catalog[2..];
    assert |Filter(Catalog[1..], IsUnlocked)| == 2;
    assert |Filter(Catalog, IsUnlocked)| == 3;
  }

  /** Here the "Quase lá" list holds achievements 4 and 5. */
  lemma CatalogAlmostThere()
    ensures |AlmostThere(Catalog)| == 2
    ensures AlmostThere(Catalog)[0].id == 4 && AlmostThere(Catalog)[1].id == 5
  {
    CatalogCandidates();
    CandidatesWhenTwo(Catalog);
    CatalogWellFormed();
  }

  lemma CandidatesWhenTwo(catalog: seq<Achievement>)
    requires |Filter(catalog, AlmostUnlocked)| == 2
    ensures AlmostThere(catalog) == Filter(catalog, AlmostUnlocked)
  {
  }

  lemma CatalogCandidates()
    ensures Filter(Catalog, AlmostUnlocked) == [Catalog[3], Catalog[4]]
  {
    LateCandidates();
    assert Filter(Catalog[2..], AlmostUnlocked) == [Catalog[3], Catalog[4]];
    assert Filter(Catalog[1..], AlmostUnlocked) == [Catalog[3], Catalog[4]];
  }

  lemma LateCandidates()
    ensures Filter(Catalog[3..], AlmostUnlocked) == [Catalog[3], Catalog[4]]
  {
    assert Filter(Catalog[5..], AlmostUnlocked) == [];
    assert Filter(Catalog[4..], AlmostUnlocked) == [Catalog[4]];
  }

  /** What the screen shows for a selected category. */
  datatype Screen = Screen(shown: seq<Achievement>, unlockedCount: nat, totalCount: nat, almostThere: seq<Achievement>)

  function Render<U>(user: U, selected: string): (s: Screen)
    ensures s.unlockedCount <= s.totalCount && |s.almostThere| <= 2
    ensures s.shown == FilteredAchievements(Catalog, selected) && s.unlockedCount == UnlockedCount(Catalog)
    ensures s.totalCount == |Catalog| && s.almostThere == AlmostThere(Catalog)
  {
    Screen(FilteredAchievements(Catalog, selected), UnlockedCount(Catalog), |Catalog|, AlmostThere(Catalog))
  }

  /** The `user` prop is never read: every user sees the same screen. */
  lemma RenderIgnoresUser<U>(u1: U, u2: U, selected: string)
    ensures Render(u1, selected) == Render(u2, selected)
  {
  }
}
