/** Values and helpers that the back end and the front end share: optional
    values, JavaScript truthiness, instants and UTC calendar days, and the
    order-preserving `filter` of JavaScript arrays. */
module Common {

  datatype Option<+T> = None | Some(value: T)

  /** JavaScript truthiness of an optional string: absent and "" are falsy. */
  predicate Truthy(s: Option<string>) {
    s.Some? && s.value != ""
  }

  /** `s || fallback` for an optional string. */
  function OrElse(s: Option<string>, fallback: string): (r: string)
    ensures Truthy(s) ==> r == s.value
    ensures !Truthy(s) ==> r == fallback
  {
    if Truthy(s) then s.value else fallback
  }

  /** A JavaScript `Date`: milliseconds since the Unix epoch, UTC. */
  type Instant = int

  const DayMs: int := 24 * 60 * 60 * 1000

  /** The UTC calendar day of an instant, i.e. the day that
      `date.toISOString().split("T")[0]` names. Euclidean division by a
      positive divisor rounds down, so instants before 1970 land on the right
      day too. */
  function DayKey(t: Instant): int {
    t / DayMs
  }

  /** Midnight UTC of a day: what `new Date("YYYY-MM-DD")` yields for that
      day's ISO key. */
  function DayStart(day: int): Instant {
    day * DayMs
  }

  /** The day key of an instant is the one day whose 24 hours contain it. */
  lemma DayKeyIsContainingDay(t: Instant, day: int)
    ensures DayKey(t) == day <==> DayStart(day) <= t < DayStart(day + 1)
  {
    var q, r := t / DayMs, t % DayMs;
    assert t == q * DayMs + r && 0 <= r < DayMs;
  }

  /** Shifting an instant by whole days shifts its day key by as many days. */
  lemma DayKeyShift(t: Instant, n: int)
    ensures DayKey(t + n * DayMs) == DayKey(t) + n
  {
    var d := DayKey(t);
    DayKeyIsContainingDay(t, d);
    DayKeyIsContainingDay(t + n * DayMs, d + n);
  }

  lemma DayKeyOfDayStart(day: int)
    ensures DayKey(DayStart(day)) == day
  {
    DayKeyIsContainingDay(DayStart(day), day);
  }

  /** A date field of a request body, as JavaScript truthiness and
      `new Date(x)` see it: missing, the empty string, a non-empty string that
      does not parse (an Invalid Date), or a parsed instant. */
  datatype DateInput = Absent | Empty | Unparseable | At(t: Instant)

  predicate DateTruthy(d: DateInput) {
    d.Unparseable? || d.At?
  }

  /** `a` is an order-preserving subsequence of `b`. */
  predicate IsSubsequence<T(==)>(a: seq<T>, b: seq<T>)
    decreases |b|
  {
    a == [] || (b != [] && ((a[0] == b[0] && IsSubsequence(a[1..], b[1..])) || IsSubsequence(a, b[1..])))
  }

  /** `xs.filter(p)`. */
  function Filter<T>(xs: seq<T>, p: T -> bool): (r: seq<T>)
    ensures |r| <= |xs|
    ensures forall i :: 0 <= i < |r| ==> p(r[i])
  {
    if xs == [] then [] else if p(xs[0]) then [xs[0]] + Filter(xs[1..], p) else Filter(xs[1..], p)
  }

  /** The elements `filter` keeps are exactly the elements that pass. */
  lemma {:induction false} FilterMembership<T>(xs: seq<T>, p: T -> bool, x: T)
    ensures x in Filter(xs, p) <==> x in xs && p(x)
  {
    if xs != [] {
      FilterMembership(xs[1..], p, x);
      assert xs == [xs[0]] + xs[1..];
    }
  }

  /** `filter` keeps the input order. */
  lemma {:induction false} FilterIsSubsequence<T>(xs: seq<T>, p: T -> bool)
    ensures IsSubsequence(Filter(xs, p), xs)
  {
    if xs != [] {
      FilterIsSubsequence(xs[1..], p);
      var r := Filter(xs, p);
      if p(xs[0]) {
        assert r[0] == xs[0] && r[1..] == Filter(xs[1..], p);
      } else {
        SubsequenceOfTail(r, xs);
      }
    }
  }

  lemma SubsequenceOfTail<T>(a: seq<T>, b: seq<T>)
    requires b != [] && IsSubsequence(a, b[1..])
    ensures IsSubsequence(a, b)
  {
  }

  /** Filtering with a predicate every element passes keeps the whole input. */
  lemma {:induction false} FilterAll<T>(xs: seq<T>, p: T -> bool)
    requires forall i :: 0 <= i < |xs| ==> p(xs[i])
    ensures Filter(xs, p) == xs
  {
    if xs != [] {
      FilterAll(xs[1..], p);
      assert xs == [xs[0]] + xs[1..];
    }
  }

  /** `xs.find(p)`, as the index of the element it finds: the first element
      that passes, or none when no element passes. */
  function FindFirst<T>(xs: seq<T>, p: T -> bool): (r: Option<nat>)
    ensures r.Some? ==> r.value < |xs| && p(xs[r.value])
    ensures r.Some? ==> forall j :: 0 <= j < r.value ==> !p(xs[j])
    ensures r.None? ==> forall j :: 0 <= j < |xs| ==> !p(xs[j])
  {
    if xs == [] then None
    else if p(xs[0]) then Some(0)
    else match FindFirst(xs[1..], p)
      case None => None
      case Some(k) => Some(k + 1)
  }

  /** `find` is determined by its contract: an index whose element passes,
      with no passing element before it, is the one `find` returns. */
  lemma {:induction false} FindFirstIs<T>(xs: seq<T>, p: T -> bool, k: nat)
    requires k < |xs| && p(xs[k])
    requires forall j :: 0 <= j < k ==> !p(xs[j])
    ensures FindFirst(xs, p) == Some(k)
  {
    if k > 0 {
      assert !p(xs[0]);
      assert forall j :: 0 <= j < k - 1 ==> xs[1..][j] == xs[j + 1];
      FindFirstIs(xs[1..], p, k - 1);
    }
  }
}
