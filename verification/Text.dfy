/** Splitting on a separator (`str::split`, `str::splitn(2, _)`) and lexicographic order. */
module Text {
  import opened Prelude

  predicate Contains(s: string, c: char) { exists i | 0 <= i < |s| :: s[i] == c }

  /** `s.split(c).collect()`: the parts between the separators, empty ones included. */
  function Split(s: string, c: char): (parts: seq<string>)
    ensures |parts| > 0
  {
    if s == "" then [""]
    else
      var rest := Split(s[1..], c);
      if s[0] == c then [""] + rest else [[s[0]] + rest[0]] + rest[1..]
  }

  function Join(parts: seq<string>, c: char): string
    requires |parts| > 0
  {
    if |parts| == 1 then parts[0] else parts[0] + [c] + Join(parts[1..], c)
  }

  /** Split undoes to the original text, and no part holds the separator. */
  lemma {:induction false} SplitJoin(s: string, c: char)
    ensures Join(Split(s, c), c) == s
    ensures forall i | 0 <= i < |Split(s, c)| :: !Contains(Split(s, c)[i], c)
  {
    if s != "" {
      SplitJoin(s[1..], c);
      var rest := Split(s[1..], c);
      assert s == [s[0]] + s[1..];
      if s[0] == c {
        assert Split(s, c)[1..] == rest;
        assert forall i | 0 < i < |Split(s, c)| :: Split(s, c)[i] == rest[i - 1];
      } else {
        assert forall i | 0 < i < |Split(s, c)| :: Split(s, c)[i] == rest[i];
        assert Split(s, c)[1..] == rest[1..];
        assert !Contains(rest[0], c);
        assert forall i | 0 < i < |Split(s, c)[0]| :: Split(s, c)[0][i] == rest[0][i - 1];
      }
    }
  }

  /** A separator-free head splits off as the first part. */
  lemma {:induction false} SplitHead(head: string, tail: string, c: char)
    requires !Contains(head, c)
    ensures Split(head, c) == [head]
    ensures Split(head + [c] + tail, c) == [head] + Split(tail, c)
  {
    var s := head + [c] + tail;
    if head == "" {
      assert s[1..] == tail;
    } else {
      assert !Contains(head[1..], c) by {
        assert forall i | 0 <= i < |head| - 1 :: head[1..][i] == head[i + 1];
      }
      SplitHead(head[1..], tail, c);
      assert s[1..] == head[1..] + [c] + tail;
      assert [head[0]] + head[1..] == head;
      assert head[0] != c;
    }
  }

  /** Joining separator-free parts and splitting again gives the same parts. */
  lemma {:induction false} JoinSplit(parts: seq<string>, c: char)
    requires |parts| > 0
    requires forall i | 0 <= i < |parts| :: !Contains(parts[i], c)
    ensures Split(Join(parts, c), c) == parts
  {
    if |parts| == 1 {
      SplitHead(parts[0], "", c);
    } else {
      JoinSplit(parts[1..], c);
      SplitHead(parts[0], Join(parts[1..], c), c);
    }
  }

  /** `s.splitn(2, c)`: what precedes the first separator and, when there is one, what follows it. */
  function SplitOnce(s: string, c: char): (r: (string, Option<string>))
  {
    if s == "" then ("", None)
    else if s[0] == c then ("", Some(s[1..]))
    else var (head, tail) := SplitOnce(s[1..], c); ([s[0]] + head, tail)
  }

  lemma {:induction false} SplitOnceHead(head: string, tail: string, c: char)
    requires !Contains(head, c)
    ensures SplitOnce(head, c) == (head, None)
    ensures SplitOnce(head + [c] + tail, c) == (head, Some(tail))
  {
    var s := head + [c] + tail;
    if head == "" {
      assert s[1..] == tail;
    } else {
      assert !Contains(head[1..], c) by {
        assert forall i | 0 <= i < |head| - 1 :: head[1..][i] == head[i + 1];
      }
      SplitOnceHead(head[1..], tail, c);
      assert s[1..] == head[1..] + [c] + tail;
      assert [head[0]] + head[1..] == head;
      assert head[0] != c;
    }
  }

  /** Strict lexicographic order on strings. */
  predicate LexLess(a: string, b: string)
  {
    if b == "" then false
    else if a == "" then true
    else a[0] < b[0] || (a[0] == b[0] && LexLess(a[1..], b[1..]))
  }

  /** Equally long heads decide first, the tails only on a tie. */
  lemma {:induction false} LexConcat(x: string, y: string, s: string, t: string)
    requires |x| == |y|
    ensures LexLess(x + s, y + t) <==> LexLess(x, y) || (x == y && LexLess(s, t))
  {
    if x == "" {
      assert x + s == s && y + t == t;
    } else {
      LexConcat(x[1..], y[1..], s, t);
      assert (x + s)[1..] == x[1..] + s;
      assert (y + t)[1..] == y[1..] + t;
      assert x == [x[0]] + x[1..] && y == [y[0]] + y[1..];
    }
  }
}
