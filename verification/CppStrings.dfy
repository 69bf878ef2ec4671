/** The std::string operations the server's parsers are built from.

    A C++ size_t position is modelled as an int in which `npos` is -1: adding a
    small constant to -1 gives the same number that adding it to the largest
    size_t gives after wrap-around (npos + 1 is 0, npos + 2 is 1). */
module CppStrings {

  const NPOS: int := -1

  datatype Option<+T> = None | Some(value: T)
  {
    function GetOr(fallback: T): T {
      match this
      case Some(v) => v
      case None => fallback
    }
  }

  /** `s.find(c)`: the first position of `c`, or NPOS. */
  function Find(s: string, c: char): (p: int)
    ensures NPOS <= p < |s|
  {
    if s == "" then NPOS
    else if s[0] == c then 0
    else if Find(s[1..], c) == NPOS then NPOS
    else Find(s[1..], c) + 1
  }

  /** `s.find_first_not_of(c)`. */
  function FindFirstNotOf(s: string, c: char): (p: int)
    ensures NPOS <= p < |s|
  {
    if s == "" then NPOS
    else if s[0] != c then 0
    else if FindFirstNotOf(s[1..], c) == NPOS then NPOS
    else FindFirstNotOf(s[1..], c) + 1
  }

  /** `s.find_last_of(c)`. */
  function FindLastOf(s: string, c: char): (p: int)
    ensures NPOS <= p < |s|
  {
    if s == "" then NPOS
    else if s[|s| - 1] == c then |s| - 1
    else FindLastOf(s[..|s| - 1], c)
  }

  lemma FindMeaning(s: string, c: char)
    ensures Find(s, c) == NPOS <==> c !in s
    ensures Find(s, c) != NPOS ==> s[Find(s, c)] == c && c !in s[..Find(s, c)]
  {
    if s != "" && s[0] != c {
      FindMeaning(s[1..], c);
      assert s == [s[0]] + s[1..];
      var p := Find(s[1..], c);
      assert p != NPOS ==> s[..p + 1] == [s[0]] + s[1..][..p];
    }
  }

  lemma FindLastOfMeaning(s: string, c: char)
    ensures FindLastOf(s, c) == NPOS <==> c !in s
    ensures FindLastOf(s, c) != NPOS ==> s[FindLastOf(s, c)] == c && c !in s[FindLastOf(s, c) + 1..]
  {
    if s != "" && s[|s| - 1] != c {
      var front := s[..|s| - 1];
      FindLastOfMeaning(front, c);
      assert s == front + [s[|s| - 1]];
      var p := FindLastOf(front, c);
      assert p != NPOS ==> s[p + 1..] == front[p + 1..] + [s[|s| - 1]];
    }
  }

  /** `std::count(s.begin(), s.end(), c)`. */
  function Count(s: string, c: char): nat
  {
    if s == "" then 0 else (if s[0] == c then 1 else 0) + Count(s[1..], c)
  }

  /** `s.substr(0, n)`. */
  function Front(s: string, n: int): string
    requires n >= NPOS
  {
    if n == NPOS || n >= |s| then s else s[..n]
  }

  /** What `s.erase(0, n)` leaves of `s`. */
  function Erased(s: string, n: int): string
    requires n >= NPOS
  {
    if n == NPOS || n >= |s| then "" else s[n..]
  }

  lemma Associate<T>(a: seq<T>, b: seq<T>, c: seq<T>)
    ensures a + b + c == a + (b + c)
  {
  }

  /** Erasing a prefix leaves the rest. */
  lemma ErasedIsRest(s: string, n: int)
    requires 0 <= n <= |s|
    ensures Erased(s, n) == s[n..]
  {
  }

  /** `s.substr(0, s.find(c))`: all of `s` when `c` does not occur. */
  function Before(s: string, c: char): string {
    Front(s, Find(s, c))
  }

  /** What `s.erase(0, s.find(c) + 1)` leaves: all of `s` when `c` does not occur. */
  function Past(s: string, c: char): string {
    Erased(s, Find(s, c) + 1)
  }

  /** What `s.erase(0, s.find_first_not_of(c))` leaves: nothing when `s` is a run of `c`. */
  function Trimmed(s: string, c: char): string {
    Erased(s, FindFirstNotOf(s, c))
  }

  /** A run of `n` copies of `c`. */
  function Repeat(c: char, n: nat): (s: string)
    ensures |s| == n
  {
    seq(n, _ => c)
  }

  /** The first `c` after a prefix without `c` is found at the prefix's end. */
  lemma FindAfter(prefix: string, c: char, rest: string)
    requires c !in prefix
    ensures Find(prefix + [c] + rest, c) == |prefix|
  {
    if prefix != "" {
      assert (prefix + [c] + rest)[1..] == prefix[1..] + [c] + rest;
      FindAfter(prefix[1..], c, rest);
    }
  }

  lemma FindFirstNotOfAfter(c: char, n: nat, rest: string)
    requires rest != "" && rest[0] != c
    ensures FindFirstNotOf(Repeat(c, n) + rest, c) == n
  {
    if n == 0 {
      assert Repeat(c, n) + rest == rest;
    } else {
      assert (Repeat(c, n) + rest)[1..] == Repeat(c, n - 1) + rest;
      FindFirstNotOfAfter(c, n - 1, rest);
    }
  }

  /** Cutting at the first `c` splits the string around it. */
  lemma CutAt(prefix: string, c: char, rest: string)
    requires c !in prefix
    ensures Before(prefix + [c] + rest, c) == prefix && Past(prefix + [c] + rest, c) == rest
  {
    FindAfter(prefix, c, rest);
  }

  /** Reading a line up to CR and skipping past its LF splits off the line. */
  lemma CutLine(line: string, rest: string)
    requires '\r' !in line && '\n' !in line
    ensures Before(line + "\r\n" + rest, '\r') == line
    ensures Past(line + "\r\n" + rest, '\n') == rest
  {
    var text := line + "\r\n" + rest;
    assert text == line + ['\r'] + ("\n" + rest);
    assert text == (line + "\r") + ['\n'] + rest;
    CutAt(line, '\r', "\n" + rest);
    CutAt(line + "\r", '\n', rest);
  }

  /** Any string is what stands before the first `c`, the `c`, and what stands past it. */
  lemma SplitAt(s: string, c: char)
    requires Find(s, c) != NPOS
    ensures s == Before(s, c) + [c] + Past(s, c)
  {
    FindMeaning(s, c);
  }

  lemma TrimRun(c: char, n: nat, rest: string)
    requires rest != "" && rest[0] != c
    ensures Trimmed(Repeat(c, n) + rest, c) == rest
  {
    FindFirstNotOfAfter(c, n, rest);
  }

  lemma CountConcat(a: string, b: string, c: char)
    ensures Count(a + b, c) == Count(a, c) + Count(b, c)
  {
    if a == "" {
      assert a + b == b;
    } else {
      assert (a + b)[1..] == a[1..] + b;
      CountConcat(a[1..], b, c);
    }
  }

  lemma CountZero(s: string, c: char)
    ensures Count(s, c) == 0 <==> c !in s
  {
    if s != "" {
      CountZero(s[1..], c);
      assert s == [s[0]] + s[1..];
    }
  }
}
