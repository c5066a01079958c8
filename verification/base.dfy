/** Shared vocabulary: optional values, results that may abort, and the few
    string operations the crate borrows from Rust's `str`. */
module Base {

  datatype Option<+T> = None | Some(value: T)

  /** The outcome of an operation that may abort. `Abort` stands for a Rust
      `panic!`, `todo!` or failed `unwrap`; the reason names the site. */
  datatype Result<+T> = Ok(value: T) | Abort(reason: string) {
    predicate IsFailure() {
      Abort?
    }

    function PropagateFailure<U>(): Result<U>
      requires Abort?
    {
      Abort(reason)
    }

    function Extract(): T
      requires Ok?
    {
      value
    }
  }

  predicate StartsWith(s: string, prefix: string) {
    |prefix| <= |s| && s[..|prefix|] == prefix
  }

  /** True when `pat` occurs somewhere in `s`. */
  predicate Occurs(s: string, pat: string)
    decreases |s|
  {
    StartsWith(s, pat) || (|s| > 0 && Occurs(s[1..], pat))
  }

  /** Rust's `s.replace(pat, "")`: removes the non-overlapping occurrences of
      `pat`, scanning left to right. An empty pattern leaves `s` as it is. */
  function RemoveAll(s: string, pat: string): (r: string)
    ensures |r| <= |s|
    ensures !Occurs(s, pat) && pat != [] ==> r == s
    ensures pat != [] ==> (|r| == |s| <==> !Occurs(s, pat))
    decreases |s|
  {
    if pat == [] || |s| == 0 then s
    else if StartsWith(s, pat) then
      RemoveAll(s[|pat|..], pat)
    else
      assert Occurs(s, pat) == Occurs(s[1..], pat);
      [s[0]] + RemoveAll(s[1..], pat)
  }

  lemma ConcatAssoc<T>(a: seq<T>, b: seq<T>, c: seq<T>)
    ensures (a + b) + c == a + (b + c)
  {
  }

  /** A leading copy of the pattern is dropped, and an example:
      `"FooBarFoo".replace("Foo", "")` is `"Bar"`. */
  lemma RemoveAllLeading(pat: string, s: string)
    requires pat != []
    ensures RemoveAll(pat + s, pat) == RemoveAll(s, pat)
    ensures RemoveAll("FooBarFoo", "Foo") == "Bar"
  {
    assert (pat + s)[..|pat|] == pat;
    assert (pat + s)[|pat|..] == s;
    assert "FooBarFoo"[..3] == "Foo";
    assert "FooBarFoo"[3..] == "BarFoo";
    assert "BarFoo"[1..] == "arFoo" && "arFoo"[1..] == "rFoo" && "rFoo"[1..] == "Foo";
    assert "Foo"[..3] == "Foo" && "Foo"[3..] == "";
  }

  /** `tokens.join(sep)`. */
  function Join(tokens: seq<string>, sep: string): (r: string)
    ensures |tokens| == 1 ==> r == tokens[0]
  {
    if |tokens| == 0 then ""
    else if |tokens| == 1 then tokens[0]
    else tokens[0] + sep + Join(tokens[1..], sep)
  }

  /** A non-empty sequence is its head followed by its tail. */
  lemma Uncons<T>(xs: seq<T>)
    requires |xs| > 0
    ensures xs == [xs[0]] + xs[1..]
  {
  }

  /** Keeps the elements satisfying `p`, in order. */
  function Filter<T>(p: T -> bool, xs: seq<T>): (r: seq<T>)
    ensures |r| <= |xs|
    ensures forall i :: 0 <= i < |r| ==> r[i] in xs && p(r[i])
    ensures forall i :: 0 <= i < |xs| && p(xs[i]) ==> xs[i] in r
    ensures |r| == |xs| <==> forall i :: 0 <= i < |xs| ==> p(xs[i])
    ensures (forall i :: 0 <= i < |xs| ==> p(xs[i])) ==> r == xs
  {
    if |xs| == 0 then []
    else if p(xs[0]) then [xs[0]] + Filter(p, xs[1..])
    else Filter(p, xs[1..])
  }

  /** Filtering distributes over concatenation, and a single element is
      kept exactly when accepted: together they fix the order of the result. */
  lemma FilterAppend<T>(p: T -> bool, xs: seq<T>, ys: seq<T>)
    ensures Filter(p, xs + ys) == Filter(p, xs) + Filter(p, ys)
    ensures |xs| == 1 ==> Filter(p, xs) == (if p(xs[0]) then xs else [])
  {
    if |xs| > 0 {
      assert (xs + ys)[1..] == xs[1..] + ys;
    } else {
      assert xs + ys == ys;
    }
  }

  /** `iter().position(p)`: the first index satisfying `p`, if any. */
  function FindFirst<T>(p: T -> bool, xs: seq<T>): (r: Option<nat>)
    ensures r.Some? ==> r.value < |xs| && p(xs[r.value])
    ensures r.Some? ==> forall j :: 0 <= j < r.value ==> !p(xs[j])
    ensures r.None? ==> forall j :: 0 <= j < |xs| ==> !p(xs[j])
  {
    if |xs| == 0 then None
    else if p(xs[0]) then Some(0)
    else
      var rest := FindFirst(p, xs[1..]);
      if rest.None? then None else Some(rest.value + 1)
  }

  /** Every element lands in exactly one of the two filters. */
  lemma {:induction false} FilterPartition<T>(p: T -> bool, q: T -> bool, xs: seq<T>)
    requires forall x :: q(x) == !p(x)
    ensures multiset(Filter(p, xs)) + multiset(Filter(q, xs)) == multiset(xs)
    decreases |xs|
  {
    if |xs| > 0 {
      FilterPartition(p, q, xs[1..]);
      assert xs == [xs[0]] + xs[1..];
    }
  }

  /** No two elements share a key. */
  ghost predicate DistinctBy<T, K>(key: T -> K, xs: seq<T>) {
    forall i, j :: 0 <= i < j < |xs| ==> key(xs[i]) != key(xs[j])
  }

  /** The keys of a sequence's elements. */
  function Keys<T, K>(key: T -> K, xs: seq<T>): set<K> {
    set i | 0 <= i < |xs| :: key(xs[i])
  }

  /** Itertools' `unique_by`: each element whose key has not been seen yet,
      in order; later elements with a seen key are dropped. */
  function UniqueBy<T, K(==)>(key: T -> K, xs: seq<T>, seen: set<K>): (r: seq<T>)
    ensures forall i :: 0 <= i < |r| ==> r[i] in xs && key(r[i]) !in seen
    ensures DistinctBy(key, r)
    ensures Keys(key, r) == Keys(key, xs) - seen
    decreases |xs|
  {
    if |xs| == 0 then []
    else
      assert Keys(key, xs) == {key(xs[0])} + Keys(key, xs[1..]) by {
        forall k | k in Keys(key, xs) ensures k in {key(xs[0])} + Keys(key, xs[1..]) {
          var i :| 0 <= i < |xs| && key(xs[i]) == k;
          if i > 0 { assert key(xs[1..][i - 1]) == k; }
        }
      }
      if key(xs[0]) in seen then UniqueBy(key, xs[1..], seen)
      else
        var rest := UniqueBy(key, xs[1..], seen + {key(xs[0])});
        assert Keys(key, [xs[0]] + rest) == {key(xs[0])} + Keys(key, rest) by {
          forall k | k in Keys(key, [xs[0]] + rest) ensures k in {key(xs[0])} + Keys(key, rest) {
            var i :| 0 <= i < |[xs[0]] + rest| && key(([xs[0]] + rest)[i]) == k;
            if i > 0 { assert key(rest[i - 1]) == k; }
          }
          forall k | k in Keys(key, rest) ensures k in Keys(key, [xs[0]] + rest) {
            var i :| 0 <= i < |rest| && key(rest[i]) == k;
            assert key(([xs[0]] + rest)[i + 1]) == k;
          }
          assert key(([xs[0]] + rest)[0]) == key(xs[0]);
        }
        [xs[0]] + rest
  }

  /** The first element with each unseen key is kept. */
  lemma {:induction false} UniqueByKeepsFirst<T, K>(key: T -> K, xs: seq<T>, seen: set<K>, j: nat)
    requires j < |xs| && key(xs[j]) !in seen && FirstOfKey(key, xs, j)
    ensures xs[j] in UniqueBy(key, xs, seen)
    decreases |xs|
  {
    if j > 0 {
      assert key(xs[0]) != key(xs[j]);
      assert xs[1..][j - 1] == xs[j];
      assert FirstOfKey(key, xs[1..], j - 1) by {
        forall l | 0 <= l < j - 1 ensures key(xs[1..][l]) != key(xs[1..][j - 1]) {
          assert xs[1..][l] == xs[l + 1];
        }
      }
      if key(xs[0]) in seen {
        UniqueByKeepsFirst(key, xs[1..], seen, j - 1);
      } else {
        UniqueByKeepsFirst(key, xs[1..], seen + {key(xs[0])}, j - 1);
      }
    }
  }

  /** `xs[j]` is the first element with its key. */
  predicate FirstOfKey<T, K(==)>(key: T -> K, xs: seq<T>, j: nat)
    requires j < |xs|
  {
    forall l :: 0 <= l < j ==> key(xs[l]) != key(xs[j])
  }
}
