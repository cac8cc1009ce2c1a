/** Shared vocabulary of the perception-to-actuation loops: landmarks, Python's
    truncating int(), the exponential smoothing filter and list.remove. */
module Common {

  datatype Option<T> = None | Some(value: T)

  /** One normalised landmark of a hand or face mesh (only x and y are used). */
  datatype Landmark = Landmark(x: real, y: real)

  function Abs(r: real): (a: real)
    ensures a >= 0.0 && (a == r || a == -r)
  {
    if r < 0.0 then -r else r
  }

  /** Python's int() applied to a float: truncation toward zero. */
  function Trunc(r: real): (t: int)
    ensures r >= 0.0 ==> t as real <= r < t as real + 1.0
    ensures r < 0.0 ==> t as real - 1.0 < r <= t as real
  {
    if r >= 0.0 then r.Floor else -((-r).Floor)
  }

  lemma TruncOfInt(n: int)
    ensures Trunc(n as real) == n
  {
  }

  /** int() is monotone. */
  lemma TruncMonotone(a: real, b: real)
    requires a <= b
    ensures Trunc(a) <= Trunc(b)
  {
    if a < 0.0 && b >= 0.0 {
    } else if a < 0.0 {
      assert (-b).Floor <= (-a).Floor;
    }
  }

  /** Python's max(lo, min(v, hi)). */
  function Clamp(v: int, lo: int, hi: int): (c: int)
    requires lo <= hi
    ensures lo <= c <= hi
    ensures lo <= v <= hi ==> c == v
    ensures v < lo ==> c == lo
    ensures v > hi ==> c == hi
  {
    if v < lo then lo else if v > hi then hi else v
  }

  /** The smoothing coefficient shared by the hand trackers. */
  const Alpha: real := 0.3

  /** One step of the exponential filter: move a fixed 30% of the way to the target. */
  function Smooth(prev: real, target: real): (r: real)
    ensures prev <= target ==> prev <= r <= target
    ensures target <= prev ==> target <= r <= prev
    ensures target - r == 0.7 * (target - prev)
    ensures Abs(target - r) == 0.7 * Abs(target - prev)
  {
    prev + (target - prev) * Alpha
  }

  function Pow(b: real, n: nat): real
  {
    if n == 0 then 1.0 else b * Pow(b, n - 1)
  }

  /** The filter applied n times toward a target that is held still. */
  function SmoothN(prev: real, target: real, n: nat): real
  {
    if n == 0 then prev else Smooth(SmoothN(prev, target, n - 1), target)
  }

  /** A distance d shrunk n times by the factor 0.7. */
  function Decay(d: real, n: nat): real
  {
    if n == 0 then d else 0.7 * Decay(d, n - 1)
  }

  /** Shrinking n times by 0.7 is multiplying by 0.7^n. */
  lemma {:induction false} DecayIsPow(d: real, n: nat)
    ensures Decay(d, n) == Pow(0.7, n) * d
  {
    if n > 0 {
      DecayIsPow(d, n - 1);
      ScalePow(Decay(d, n - 1), Pow(0.7, n - 1), Pow(0.7, n), d);
    }
  }

  lemma ScalePow(x: real, p: real, y: real, d: real)
    requires x == p * d && y == 0.7 * p
    ensures 0.7 * x == y * d
  {
  }

  /** Settling: after n ticks toward a held target the remaining distance is the
      initial one shrunk n times by 0.7, that is 0.7^n times it (DecayIsPow). */
  lemma {:induction false} SmoothConverges(prev: real, target: real, n: nat)
    ensures target - SmoothN(prev, target, n) == Decay(target - prev, n)
  {
    if n > 0 {
      SmoothConverges(prev, target, n - 1);
    }
  }

  /** The filter never overshoots: every iterate stays between start and target. */
  lemma {:induction false} SmoothNoOvershoot(prev: real, target: real, n: nat)
    ensures prev <= target ==> prev <= SmoothN(prev, target, n) <= target
    ensures target <= prev ==> target <= SmoothN(prev, target, n) <= prev
  {
    if n > 0 {
      SmoothNoOvershoot(prev, target, n - 1);
    }
  }

  /** Python's list.remove(v): drop the first element equal to v. */
  function RemoveFirst<T(==)>(s: seq<T>, v: T): (r: seq<T>)
    requires v in s
    ensures |r| == |s| - 1
    decreases |s|
  {
    if s[0] == v then s[1..]
    else
      assert v in s[1..] by {
        var k :| 0 <= k < |s| && s[k] == v;
        assert s[1..][k - 1] == v;
      }
      [s[0]] + RemoveFirst(s[1..], v)
  }

  /** list.remove(v) drops exactly one occurrence of v. */
  lemma {:induction false} RemoveFirstMultiset<T>(s: seq<T>, v: T)
    requires v in s
    ensures multiset(RemoveFirst(s, v)) == multiset(s) - multiset{v}
    decreases |s|
  {
    assert s == [s[0]] + s[1..];
    if s[0] != v {
      assert v in s[1..];
      RemoveFirstMultiset(s[1..], v);
    }
  }

  /** Concatenation is associative. */
  lemma ConcatAssoc<T>(a: seq<T>, b: seq<T>, c: seq<T>)
    ensures a + (b + c) == (a + b) + c
  {
  }

  /** The head and tail of a concatenation with a non-empty left operand. */
  lemma ConcatHead<T>(a: seq<T>, b: seq<T>)
    requires a != []
    ensures (a + b)[0] == a[0]
    ensures (a + b)[1..] == a[1..] + b
  {
  }

  /** Stepping a suffix forward by one element. */
  lemma SuffixStep<T>(s: seq<T>, i: nat)
    requires i < |s|
    ensures s[i..][0] == s[i]
    ensures s[i..][1..] == s[i + 1..]
  {
  }

  /** A suffix is its first element followed by the next suffix. */
  lemma SuffixCons<T>(s: seq<T>, i: nat)
    requires i < |s|
    ensures s[i..] == [s[i]] + s[i + 1..]
  {
  }

  /** A prefix one longer is the shorter prefix and one more element. */
  lemma PrefixSnoc<T>(s: seq<T>, i: nat)
    requires i < |s|
    ensures s[..i + 1][..i] == s[..i]
    ensures s[..i + 1][i] == s[i]
    ensures s[..i + 1] == s[..i] + [s[i]]
  {
  }

  /** Replacing the element just after `front`. */
  lemma UpdateAfter<T>(front: seq<T>, x: T, back: seq<T>, y: T)
    ensures (front + [x] + back)[|front| := y] == front + [y] + back
  {
  }

  /** list.remove(v) on a list starting with v drops that head. */
  lemma RemoveFirstHead<T>(v: T, t: seq<T>)
    ensures v in [v] + t
    ensures RemoveFirst([v] + t, v) == t
  {
    var s := [v] + t;
    assert s[0] == v;
    assert s[1..] == t;
  }

  /** list.remove(v) skips a head that is not v. */
  lemma RemoveFirstCons<T>(x: T, t: seq<T>, v: T)
    requires x != v && v in t
    ensures v in [x] + t
    ensures RemoveFirst([x] + t, v) == [x] + RemoveFirst(t, v)
  {
    var s := [x] + t;
    assert s[0] == x;
    assert s[1..] == t;
  }

  /** Splitting off the head of a non-empty left operand. */
  lemma ConsAppend<T>(a: seq<T>, b: seq<T>)
    requires a != []
    ensures a + b == [a[0]] + (a[1..] + b)
  {
    assert a == [a[0]] + a[1..];
  }

  /** When no element before v equals it, list.remove(v) removes exactly that element. */
  lemma {:induction false} RemoveFirstAt<T>(a: seq<T>, v: T, b: seq<T>)
    requires v !in a
    ensures v in a + [v] + b
    ensures RemoveFirst(a + [v] + b, v) == a + b
    decreases |a|
  {
    var s := a + [v] + b;
    assert s[|a|] == v;
    if a == [] {
      assert s == [v] + b;
      RemoveFirstHead(v, b);
    } else {
      var rest := a[1..];
      ConsAppend(a, [v]);
      ConsAppend(a, b);
      assert s == [a[0]] + (rest + [v] + b);
      assert a[0] in a;
      assert v !in rest;
      RemoveFirstAt(rest, v, b);
      RemoveFirstCons(a[0], rest + [v] + b, v);
    }
  }
}
