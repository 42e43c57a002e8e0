/** Small vocabulary shared by every component. */
module Common {
  datatype Option<+T> = None | Some(value: T)

  /** A wallet owner: a human or a bound machine, each with its own id space. */
  datatype Subject = Human(id: string) | Ai(id: string)

  const MAX_SQLITE_INTEGER: int := 9_223_372_036_854_775_807

  function Min(a: int, b: int): int {
    if a <= b then a else b
  }

  function Max(a: int, b: int): int {
    if a <= b then b else a
  }

  /** Calendar day in Asia/Shanghai (UTC+8, no daylight saving) of a UTC second. */
  function ShanghaiDay(at: int): int {
    (at + 28_800) / 86_400
  }

  ghost predicate Increasing(s: seq<int>) {
    forall i, j :: 0 <= i < j < |s| ==> s[i] < s[j]
  }

  lemma SubsetSmaller<T>(a: set<T>, b: set<T>)
    requires a <= b
    ensures |a| <= |b|
  {
    assert b == a + (b - a);
  }
}
