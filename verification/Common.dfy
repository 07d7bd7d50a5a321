/**
 Shared vocabulary: optional values, results, and instants.

 An instant is a whole number of nanoseconds since 0001-01-01T00:00:00Z, the zero value of
 Go's time.Time, so `t == ZERO_TIME` is the source's `t.IsZero()` and UTC days begin at the
 multiples of DAY on both sides of it.
 */
module Common {

  datatype Option<+T> = None | Some(value: T)

  datatype Result<+T, +E> = Ok(value: T) | Err(error: E)

  function Get<K, V>(m: map<K, V>, k: K): Option<V> {
    if k in m then Some(m[k]) else None
  }

  lemma SameMap<K, V>(a: map<K, V>, b: map<K, V>)
    requires forall k :: Get(a, k) == Get(b, k)
    ensures a == b
  {
    forall k
      ensures k in a <==> k in b
      ensures k in a ==> a[k] == b[k]
    {
      assert Get(a, k) == Get(b, k);
    }
  }

  type Time = int

  const ZERO_TIME: Time := 0

  const DAY: int := 86_400_000_000_000

  function OrZero(t: Option<Time>): Time {
    if t.None? then ZERO_TIME else t.value
  }

  /** `dayStartUTC`: midnight, UTC, of the day holding `t`. */
  function DayStart(t: Time): (d: Time)
    ensures d <= t < d + DAY
    ensures d % DAY == 0
  {
    t - t % DAY
  }

  function Max(a: int, b: int): int {
    if a < b then b else a
  }

  function Min(a: int, b: int): int {
    if b < a then b else a
  }

  /** The later of two optional instants, where None is "no instant". */
  function Later(a: Option<Time>, b: Option<Time>): Option<Time> {
    if a.None? then b else if b.None? then a else Some(Max(a.value, b.value))
  }

  /** The earlier of two optional instants, where None is "no instant". */
  function Earlier(a: Option<Time>, b: Option<Time>): Option<Time> {
    if a.None? then b else if b.None? then a else Some(Min(a.value, b.value))
  }

  function IsSpace(c: char): bool {
    c in {' ', '\t', '\n', '\U{000B}', '\U{000C}', '\r', '\U{0085}', '\U{00A0}', '\U{1680}', '\U{2028}',
          '\U{2029}', '\U{202F}', '\U{205F}', '\U{3000}'} || '\U{2000}' <= c <= '\U{200A}'
  }

  /** `strings.TrimSpace(s) == ""`. */
  predicate Blank(s: string) {
    forall c | c in s :: IsSpace(c)
  }

  lemma SubsetIsSmaller<T>(a: set<T>, b: set<T>)
    requires a <= b
    ensures |a| <= |b|
  {
    assert b == a + (b - a);
  }
}
