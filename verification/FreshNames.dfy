/** The search for an unused name (db/session.py): the base name, or the base with the first
    free number from 2 on. It ends because a finite set cannot hold all the numbered names.
 */
module FreshNames {
  import opened Text

  function Numbered(base: string, separator: string, n: nat): string {
    base + separator + Decimal(n)
  }

  lemma NumberedIsInjective(base: string, separator: string, m: nat, n: nat)
    requires Numbered(base, separator, m) == Numbered(base, separator, n)
    ensures m == n
  {
    var before := base + separator;
    assert Numbered(base, separator, m)[|before|..] == Decimal(m);
    assert Numbered(base, separator, n)[|before|..] == Decimal(n);
    DecimalIsInjective(m, n);
  }

  ghost predicate AllTaken(base: string, separator: string, taken: set<string>, lo: nat, hi: nat) {
    forall m :: lo <= m < hi ==> Numbered(base, separator, m) in taken
  }

  /** Pigeonhole: a set that holds the names of a range of numbers is at least that large. */
  lemma {:induction false} Pigeonhole(base: string, separator: string, taken: set<string>, lo: nat, hi: nat)
    requires lo <= hi && AllTaken(base, separator, taken, lo, hi)
    ensures hi - lo <= |taken|
    decreases hi
  {
    if lo < hi {
      var last := Numbered(base, separator, hi - 1);
      forall m | lo <= m < hi - 1 ensures Numbered(base, separator, m) in taken - {last} {
        if Numbered(base, separator, m) == last {
          NumberedIsInjective(base, separator, m, hi - 1);
        }
      }
      Pigeonhole(base, separator, taken - {last}, lo, hi - 1);
    }
  }

  /** The first free number, searched upwards from one below which none is free. */
  function FirstFree(base: string, separator: string, taken: set<string>, lo: nat, n: nat): (free: nat)
    requires lo <= n && AllTaken(base, separator, taken, lo, n)
    ensures n <= free && Numbered(base, separator, free) !in taken
    ensures AllTaken(base, separator, taken, lo, free)
    ensures free - lo <= |taken|
    decreases |taken| + lo - n
  {
    Pigeonhole(base, separator, taken, lo, n);
    if Numbered(base, separator, n) !in taken then n
    else
      Pigeonhole(base, separator, taken, lo, n + 1);
      FirstFree(base, separator, taken, lo, n + 1)
  }

  function FreshName(base: string, separator: string, taken: set<string>): (name: string)
    ensures name !in taken
    ensures base !in taken ==> name == base
  {
    if base !in taken then base else Numbered(base, separator, FirstFree(base, separator, taken, 2, 2))
  }

  /** No smaller number would do. */
  lemma FreshNameIsLeast(base: string, separator: string, taken: set<string>, n: nat)
    requires base in taken && FreshName(base, separator, taken) == Numbered(base, separator, n)
    ensures 2 <= n <= |taken| + 2
    ensures forall m :: 2 <= m < n ==> Numbered(base, separator, m) in taken
  {
    NumberedIsInjective(base, separator, n, FirstFree(base, separator, taken, 2, 2));
  }

  lemma NumberedBelongs(base: string, separator: string, taken: set<string>, n: nat)
    requires 2 <= n && AllTaken(base, separator, taken, 2, n) && Numbered(base, separator, n) !in taken
    ensures FirstFree(base, separator, taken, 2, 2) == n
  {
    assert Numbered(base, separator, FirstFree(base, separator, taken, 2, 2)) !in taken;
  }

  /** The loop that both searches of the source run. */
  method SearchFreshName(base: string, separator: string, taken: set<string>) returns (name: string)
    ensures name == FreshName(base, separator, taken)
  {
    if base !in taken {
      return base;
    }
    var suffix := 2;
    while Numbered(base, separator, suffix) in taken
      invariant suffix >= 2 && AllTaken(base, separator, taken, 2, suffix)
      decreases |taken| + 2 - suffix
    {
      Pigeonhole(base, separator, taken, 2, suffix + 1);
      suffix := suffix + 1;
    }
    NumberedBelongs(base, separator, taken, suffix);
    return Numbered(base, separator, suffix);
  }

  /** _sqlite_legacy_table_name */
  method SqliteLegacyTableName(existing: set<string>, base: string) returns (name: string)
    ensures name !in existing
    ensures name == FreshName(base, "_", existing)
  {
    name := SearchFreshName(base, "_", existing);
  }
}
