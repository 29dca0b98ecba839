/** The product search: a case-insensitive substring match of the query
    against a product's name, description or category. */
module ProductSearch {
  import opened Records

  /** `toLowerCase` on one character (ASCII letters only). */
  function LowerChar(c: char): char {
    if 'A' <= c <= 'Z' then (c as int + ('a' as int - 'A' as int)) as char else c
  }

  function ToLower(s: string): string {
    seq(|s|, i requires 0 <= i < |s| => LowerChar(s[i]))
  }

  /** Lowercasing twice is lowercasing once. */
  lemma ToLowerIdempotent(s: string)
    ensures ToLower(ToLower(s)) == ToLower(s)
  {
  }

  /** `q` occurs in `s` starting at index `i`. */
  ghost predicate OccursAt(s: string, q: string, i: nat) {
    i + |q| <= |s| && s[i..i + |q|] == q
  }

  /** `s.includes(q)`: tries every starting position from the left. */
  function Includes(s: string, q: string): bool
    decreases |s|
  {
    if q <= s then true
    else if |s| == 0 then false
    else Includes(s[1..], q)
  }

  /** `Includes` holds exactly when `q` occurs somewhere in `s`. */
  lemma {:induction false} IncludesIff(s: string, q: string)
    ensures Includes(s, q) <==> exists i: nat :: OccursAt(s, q, i)
    decreases |s|
  {
    if q <= s {
      assert OccursAt(s, q, 0);
    } else if |s| == 0 {
      forall i: nat ensures !OccursAt(s, q, i) {
      }
    } else {
      IncludesIff(s[1..], q);
      if Includes(s[1..], q) {
        var i: nat :| OccursAt(s[1..], q, i);
        assert s[1..][i..i + |q|] == s[i + 1..i + 1 + |q|];
        assert OccursAt(s, q, i + 1);
      } else {
        forall i: nat ensures !OccursAt(s, q, i) {
          if 0 < i && i + |q| <= |s| {
            assert s[1..][i - 1..i - 1 + |q|] == s[i..i + |q|];
            assert !OccursAt(s[1..], q, i - 1);
          }
        }
      }
    }
  }

  /** The empty query occurs in every string. */
  lemma IncludesEmpty(s: string)
    ensures Includes(s, "")
  {
  }

  /** The filter predicate of the search route. */
  predicate Matches(p: Product, q: string) {
    var lq := ToLower(q);
    Includes(ToLower(p.name), lq)
    || Includes(ToLower(p.description), lq)
    || Includes(ToLower(p.category), lq)
  }

  /** A product matches when the lowercased query occurs in its lowercased
      name, description or category. */
  lemma MatchesIff(p: Product, q: string)
    ensures Matches(p, q) <==>
      (exists i: nat :: OccursAt(ToLower(p.name), ToLower(q), i))
      || (exists i: nat :: OccursAt(ToLower(p.description), ToLower(q), i))
      || (exists i: nat :: OccursAt(ToLower(p.category), ToLower(q), i))
  {
    IncludesIff(ToLower(p.name), ToLower(q));
    IncludesIff(ToLower(p.description), ToLower(q));
    IncludesIff(ToLower(p.category), ToLower(q));
  }

  /** `products.filter(...)`: keeps, in order, the products that match. */
  function Filter(ps: seq<Product>, q: string): (r: seq<Product>)
    ensures |r| <= |ps|
    ensures forall p :: multiset(r)[p] == if Matches(p, q) then multiset(ps)[p] else 0
    decreases |ps|
  {
    if |ps| == 0 then []
    else
      var rest := Filter(ps[1..], q);
      assert ps == [ps[0]] + ps[1..];
      if Matches(ps[0], q) then [ps[0]] + rest else rest
  }

  /** Filtering distributes over concatenation, so the relative order of the
      kept products is that of the collection. */
  lemma {:induction false} FilterAppend(a: seq<Product>, b: seq<Product>, q: string)
    ensures Filter(a + b, q) == Filter(a, q) + Filter(b, q)
    decreases |a|
  {
    if |a| == 0 {
      assert a + b == b;
    } else {
      assert (a + b)[1..] == a[1..] + b;
      FilterAppend(a[1..], b, q);
    }
  }

  /** The search route: no query or an empty one returns every product;
      otherwise the matching ones, in order. */
  function Search(ps: seq<Product>, q: Option<string>): (r: seq<Product>)
    ensures q.None? || q.value == "" ==> r == ps
    ensures q.Some? && q.value != "" ==> r == Filter(ps, q.value)
    ensures q.Some? ==> forall p :: multiset(r)[p] == if Matches(p, q.value) then multiset(ps)[p] else 0
  {
    if q.None? || q.value == "" then ps else Filter(ps, q.value)
  }

  /** Every product matches the empty query, so filtering by it would also
      return the whole collection. */
  lemma {:induction false} FilterEmptyQuery(ps: seq<Product>)
    ensures Filter(ps, "") == ps
    decreases |ps|
  {
    if |ps| > 0 {
      IncludesEmpty(ToLower(ps[0].name));
      assert ToLower("") == "";
      FilterEmptyQuery(ps[1..]);
      assert ps == [ps[0]] + ps[1..];
    }
  }

  /** The case of the query does not matter. */
  lemma SearchIgnoresQueryCase(ps: seq<Product>, q: string)
    ensures Search(ps, Some(q)) == Search(ps, Some(ToLower(q)))
  {
    ToLowerIdempotent(q);
    forall p ensures Matches(p, q) == Matches(p, ToLower(q)) {
    }
    FilterSameMatches(ps, q, ToLower(q));
  }

  lemma {:induction false} FilterSameMatches(ps: seq<Product>, q1: string, q2: string)
    requires forall p :: Matches(p, q1) == Matches(p, q2)
    ensures Filter(ps, q1) == Filter(ps, q2)
    decreases |ps|
  {
    if |ps| > 0 {
      FilterSameMatches(ps[1..], q1, q2);
    }
  }
}
