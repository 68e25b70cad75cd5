/** The small part of Python's and SQLAlchemy's behaviour that the application relies on:
    `None`, exceptions, truthiness of strings, `or`, `dict.get`, `str.startswith`,
    `str.find`, `str.split`, `next(...)` over a generator, and the `first()` /
    `scalar_one_or_none()` result accessors of a query. */
module Python {

  datatype Option<T> = None | Some(value: T)

  /** The exceptions the modelled code raises, catches or lets propagate. */
  datatype Exception =
    | HTTPException(statusCode: int, detail: string)
    | ValueError(message: string)
    | KeyError(key: string)
    | JWTError(message: string)
    | IntegrityError
    | DataError
    | MultipleResultsFound

  /** A Python call either returns a value or raises. */
  datatype Outcome<T> = Ok(value: T) | Raise(error: Exception)

  /** `not x` is false for a string value: only a present, non-empty string is truthy. */
  predicate Truthy(x: Option<string>) {
    x.Some? && x.value != ""
  }

  /** Python's `x or y` on two optional strings. */
  function Or(x: Option<string>, y: Option<string>): Option<string> {
    if Truthy(x) then x else y
  }

  /** `d.get(k)` */
  function Get<V>(d: map<string, V>, k: string): Option<V> {
    if k in d then Some(d[k]) else None
  }

  /** `s.startswith(prefix)` */
  predicate StartsWith(s: string, prefix: string) {
    |prefix| <= |s| && s[..|prefix|] == prefix
  }

  /** `sub` occurs in `s` starting at index `i`. */
  predicate OccursAt(s: string, sub: string, i: int) {
    0 <= i && i + |sub| <= |s| && s[i..i + |sub|] == sub
  }

  /** `sub in s` */
  ghost predicate Contains(s: string, sub: string) {
    exists i :: OccursAt(s, sub, i)
  }

  lemma OccursAtShift(s: string, sub: string, i: nat)
    requires |s| > 0
    ensures OccursAt(s, sub, i + 1) <==> OccursAt(s[1..], sub, i)
  {
    if i + 1 + |sub| <= |s| {
      assert s[i + 1..i + 1 + |sub|] == s[1..][i..i + |sub|];
    }
  }

  /** `s.find(sub)`, with -1 written as None: the first index at which `sub` occurs. */
  function Find(s: string, sub: string): (r: Option<nat>)
    requires sub != ""
    ensures r.Some? ==> OccursAt(s, sub, r.value)
    ensures r.Some? ==> forall j :: 0 <= j < r.value ==> !OccursAt(s, sub, j)
    ensures r.None? <==> !Contains(s, sub)
    decreases |s|
  {
    if |s| < |sub| then None
    else if s[..|sub|] == sub then Some(0)
    else
      match Find(s[1..], sub)
      case None =>
        assert forall j :: 0 <= j ==> !OccursAt(s, sub, j) by {
          forall j | 0 <= j ensures !OccursAt(s, sub, j) {
            if j > 0 { OccursAtShift(s, sub, j - 1); }
          }
        }
        None
      case Some(i) =>
        OccursAtShift(s, sub, i);
        assert forall j :: 0 <= j < i + 1 ==> !OccursAt(s, sub, j) by {
          forall j | 0 <= j < i + 1 ensures !OccursAt(s, sub, j) {
            if j > 0 { OccursAtShift(s, sub, j - 1); }
          }
        }
        Some(i + 1)
  }

  /** `s.split(sep)` for a non-empty separator: the pieces between the non-overlapping
      occurrences of `sep`, scanned from the left. */
  function Split(s: string, sep: string): (pieces: seq<string>)
    requires sep != ""
    ensures |pieces| >= 1
    ensures forall k :: 0 <= k < |pieces| ==> !Contains(pieces[k], sep)
    decreases |s|
  {
    match Find(s, sep)
    case None => [s]
    case Some(i) =>
      var head := s[..i];
      assert !Contains(head, sep) by {
        forall j | OccursAt(head, sep, j) ensures false {
          assert s[j..j + |sep|] == head[j..j + |sep|];
          assert OccursAt(s, sep, j);
        }
      }
      [head] + Split(s[i + |sep|..], sep)
  }

  /** `sep.join(pieces)` */
  function Join(pieces: seq<string>, sep: string): string {
    if |pieces| == 0 then ""
    else if |pieces| == 1 then pieces[0]
    else pieces[0] + sep + Join(pieces[1..], sep)
  }

  /** Splitting loses nothing: joining the pieces with the separator gives back the string. */
  lemma {:induction false} JoinSplit(s: string, sep: string)
    requires sep != ""
    ensures Join(Split(s, sep), sep) == s
    decreases |s|
  {
    match Find(s, sep)
    case None =>
    case Some(i) =>
      var rest := s[i + |sep|..];
      var tail := Split(rest, sep);
      assert Split(s, sep) == [s[..i]] + tail;
      assert Join([s[..i]] + tail, sep) == s[..i] + sep + Join(tail, sep) by {
        assert ([s[..i]] + tail)[1..] == tail;
      }
      JoinSplit(rest, sep);
      assert s == s[..i] + sep + rest;
  }

  /** The first index whose element satisfies `p`, as `next((x for x in s if p(x)), None)`
      and `query.filter(p).first()` find it. */
  function First<T>(s: seq<T>, p: T -> bool): (r: Option<nat>)
    ensures r.Some? ==> r.value < |s| && p(s[r.value])
    ensures r.Some? ==> forall j :: 0 <= j < r.value ==> !p(s[j])
    ensures r.None? <==> forall j :: 0 <= j < |s| ==> !p(s[j])
    decreases |s|
  {
    if |s| == 0 then None
    else if p(s[0]) then Some(0)
    else
      match First(s[1..], p)
      case None => None
      case Some(i) => Some(i + 1)
  }

  /** The elements of `s` that satisfy `p`, in order: `query.filter(p).all()`. */
  function Filter<T(!new)>(s: seq<T>, p: T -> bool): (r: seq<T>)
    ensures |r| <= |s|
    ensures forall k :: 0 <= k < |r| ==> r[k] in s && p(r[k])
    ensures forall k :: 0 <= k < |s| && p(s[k]) ==> s[k] in r
    ensures forall x :: multiset(r)[x] == if p(x) then multiset(s)[x] else 0
    decreases |s|
  {
    if |s| == 0 then []
    else
      assert s == [s[0]] + s[1..];
      if p(s[0]) then [s[0]] + Filter(s[1..], p)
      else Filter(s[1..], p)
  }

  /** When at most one element satisfies `p`, filtering keeps at most one. */
  lemma {:induction false} FilterAtMostOne<T(!new)>(s: seq<T>, p: T -> bool)
    requires forall i, j :: 0 <= i < |s| && 0 <= j < |s| && p(s[i]) && p(s[j]) ==> i == j
    ensures |Filter(s, p)| <= 1
    decreases |s|
  {
    if |s| > 0 {
      var tail := s[1..];
      assert forall i, j :: 0 <= i < |tail| && 0 <= j < |tail| && p(tail[i]) && p(tail[j]) ==> i == j by {
        forall i, j | 0 <= i < |tail| && 0 <= j < |tail| && p(tail[i]) && p(tail[j]) ensures i == j {
          assert s[i + 1] == tail[i] && s[j + 1] == tail[j];
        }
      }
      FilterAtMostOne(tail, p);
      var rest := Filter(tail, p);
      assert |rest| != 0 ==> rest[0] in tail && p(rest[0]);
    }
  }

  /** `result.scalar_one_or_none()` on the rows a statement selected. */
  function ScalarOneOrNone<T>(rows: seq<T>): (r: Outcome<Option<T>>)
    ensures r.Ok? && r.value.None? <==> |rows| == 0
    ensures r.Ok? && r.value.Some? <==> |rows| == 1
    ensures r.Ok? && r.value.Some? ==> r.value.value == rows[0]
    ensures r.Raise? ==> r.error == MultipleResultsFound
  {
    if |rows| == 0 then Ok(None)
    else if |rows| == 1 then Ok(Some(rows[0]))
    else Raise(MultipleResultsFound)
  }
}
