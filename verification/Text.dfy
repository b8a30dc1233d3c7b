/** The string operations of the Rust standard library that the service relies on,
    written out on sequences of characters. */
module Text {
  import opened Prelude

  function LowerChar(c: char): char {
    if 'A' <= c <= 'Z' then c - 'A' + 'a' else c
  }

  function UpperChar(c: char): char {
    if 'a' <= c <= 'z' then c - 'a' + 'A' else c
  }

  function Lower(s: string): string {
    seq(|s|, i requires 0 <= i < |s| => LowerChar(s[i]))
  }

  function Upper(s: string): string {
    seq(|s|, i requires 0 <= i < |s| => UpperChar(s[i]))
  }

  predicate EqIgnoreCase(a: string, b: string) {
    Lower(a) == Lower(b)
  }

  /** Unicode White_Space in the basic multilingual plane, which is what `trim` removes. */
  predicate IsSpace(c: char) {
    c == ' ' || '\t' <= c <= '\r' || c == '\U{85}' || c == '\U{A0}' || c == '\U{1680}'
    || '\U{2000}' <= c <= '\U{200A}' || c == '\U{2028}' || c == '\U{2029}'
    || c == '\U{202F}' || c == '\U{205F}' || c == '\U{3000}'
  }

  function TrimStart(s: string): string {
    if s != [] && IsSpace(s[0]) then TrimStart(s[1..]) else s
  }

  function TrimEnd(s: string): string {
    if s != [] && IsSpace(s[|s| - 1]) then TrimEnd(s[..|s| - 1]) else s
  }

  function Trim(s: string): string {
    TrimEnd(TrimStart(s))
  }

  /** `str::split` on one separator: always at least one piece. */
  function Split<T(==)>(s: seq<T>, sep: T): (parts: seq<seq<T>>)
    ensures |parts| > 0
  {
    if s == [] then [[]]
    else
      var rest := Split(s[1..], sep);
      if s[0] == sep then [[]] + rest
      else [[s[0]] + rest[0]] + rest[1..]
  }

  function NonEmpty<T(==)>(parts: seq<seq<T>>): seq<seq<T>> {
    if parts == [] then []
    else if parts[0] == [] then NonEmpty(parts[1..])
    else [parts[0]] + NonEmpty(parts[1..])
  }

  function Reverse<T>(s: seq<T>): seq<T> {
    if s == [] then [] else Reverse(s[1..]) + [s[0]]
  }

  /** Does `needle` occur in `hay`? The empty needle always does. */
  predicate Contains(hay: string, needle: string) {
    exists i | 0 <= i <= |hay| :: needle <= hay[i..]
  }

  /** `split_once`: the text before and after the first separator. */
  function SplitOnce(s: string, sep: char): Option<(string, string)> {
    if s == [] then None
    else if s[0] == sep then Some(([], s[1..]))
    else match SplitOnce(s[1..], sep)
      case None => None
      case Some((a, b)) => Some(([s[0]] + a, b))
  }

  /** What follows the last separator, or the whole text (`rsplit(..).next()`). */
  function AfterLast(s: string, sep: char): string {
    if s == [] then []
    else if s[|s| - 1] == sep then []
    else AfterLast(s[..|s| - 1], sep) + [s[|s| - 1]]
  }

  function DigitsValue(s: string): Option<nat> {
    if s == [] then Some(0)
    else
      var c := s[|s| - 1];
      match DigitsValue(s[..|s| - 1])
      case None => None
      case Some(n) => if '0' <= c <= '9' then Some(10 * n + (c - '0') as int) else None
  }

  /** Decimal `parse` of an unsigned integer that must not exceed `max`:
      an optional plus sign and at least one digit. */
  function ParseUnsigned(s: string, max: nat): Option<nat> {
    var digits := if s != [] && s[0] == '+' then s[1..] else s;
    if digits == [] then None
    else match DigitsValue(digits)
      case None => None
      case Some(n) => if n <= max then Some(n) else None
  }

  function Digit(d: nat): char
    requires d < 10
  {
    '0' + d as char
  }

  /** Decimal rendering. */
  function Decimal(n: nat): (s: string)
    ensures s != [] && forall i | 0 <= i < |s| :: '0' <= s[i] <= '9'
  {
    if n < 10 then [Digit(n)] else Decimal(n / 10) + [Digit(n % 10)]
  }

  lemma {:induction false} DecimalRoundTrip(n: nat)
    ensures DigitsValue(Decimal(n)) == Some(n)
  {
    if n < 10 {
      assert Decimal(n)[..0] == [];
    } else {
      DecimalRoundTrip(n / 10);
      assert Decimal(n)[..|Decimal(n)| - 1] == Decimal(n / 10);
    }
  }

  lemma {:induction false} SplitWithout<T>(s: seq<T>, sep: T)
    requires sep !in s
    ensures Split(s, sep) == [s]
  {
    if s != [] {
      SplitWithout(s[1..], sep);
      assert [s[0]] + s[1..] == s;
    }
  }

  lemma {:induction false} SplitAppend<T>(a: seq<T>, sep: T, b: seq<T>)
    ensures Split(a + [sep] + b, sep) == Split(a, sep) + Split(b, sep)
  {
    var s := a + [sep] + b;
    if a == [] {
      assert s[1..] == b;
    } else {
      assert s[1..] == a[1..] + [sep] + b;
      SplitAppend(a[1..], sep, b);
    }
  }

  /** `join`: the pieces with a separator between each two. */
  function Join<T>(parts: seq<seq<T>>, sep: T): seq<T> {
    if parts == [] then [] else if |parts| == 1 then parts[0] else parts[0] + [sep] + Join(parts[1..], sep)
  }

  lemma {:induction false} JoinAppend<T>(a: seq<seq<T>>, b: seq<seq<T>>, sep: T)
    requires a != [] && b != []
    ensures Join(a + b, sep) == Join(a, sep) + [sep] + Join(b, sep)
  {
    assert (a + b)[1..] == a[1..] + b;
    if |a| > 1 {
      JoinAppend(a[1..], b, sep);
    }
  }

  lemma {:induction false} JoinOfSplit<T>(s: seq<T>, sep: T)
    ensures Join(Split(s, sep), sep) == s
  {
    if s != [] {
      JoinOfSplit(s[1..], sep);
      var rest := Split(s[1..], sep);
      if s[0] != sep {
        assert [[s[0]] + rest[0]] + rest[1..] == Split(s, sep);
      }
    }
  }

  lemma {:induction false} NonEmptyOfNonEmpty<T>(parts: seq<seq<T>>)
    requires [] !in parts
    ensures NonEmpty(parts) == parts
  {
    if parts != [] {
      NonEmptyOfNonEmpty(parts[1..]);
    }
  }

  lemma TrimNoSpace(s: string)
    requires s != [] && !IsSpace(s[0]) && !IsSpace(s[|s| - 1])
    ensures Trim(s) == s
  {
  }

  // ---------- What these operations mean ----------

  /** Folding to lower case forgets the case of ASCII letters and nothing else. */
  lemma LowerMeans(s: string)
    ensures |Lower(s)| == |s| && Lower(Upper(s)) == Lower(s) && Lower(Lower(s)) == Lower(s)
    ensures forall i | 0 <= i < |s| ::
              if 'A' <= s[i] <= 'Z' then 'a' <= Lower(s)[i] <= 'z' && Lower(s)[i] - 'a' == s[i] - 'A' else Lower(s)[i] == s[i]
    ensures |Upper(s)| == |s| && Upper(Lower(s)) == Upper(s)
  {
  }

  predicate AllSpace(s: string) {
    forall i | 0 <= i < |s| :: IsSpace(s[i])
  }

  lemma {:induction false} TrimStartMeans(s: string) returns (k: nat)
    ensures k <= |s| && AllSpace(s[..k]) && s[k..] == TrimStart(s) && (k < |s| ==> !IsSpace(s[k]))
  {
    hide IsSpace;
    k := 0;
    if s != [] && IsSpace(s[0]) {
      k := TrimStartMeans(s[1..]);
      assert s[..k + 1] == [s[0]] + s[1..][..k] && s[k + 1..] == s[1..][k..];
      k := k + 1;
    } else {
      assert s[0..] == s;
    }
  }

  lemma {:induction false} TrimEndMeans(s: string) returns (k: nat)
    ensures k <= |s| && AllSpace(s[k..]) && s[..k] == TrimEnd(s) && (k > 0 ==> !IsSpace(s[k - 1]))
  {
    hide IsSpace;
    k := |s|;
    if s != [] && IsSpace(s[|s| - 1]) {
      var front := s[..|s| - 1];
      k := TrimEndMeans(front);
      assert s[k..] == front[k..] + [s[|s| - 1]] && s[..k] == front[..k];
    } else {
      assert s[..|s|] == s;
    }
  }

  /** Trimming takes off white space at both ends and stops at anything else. */
  lemma TrimMeans(s: string) returns (front: string, back: string)
    ensures AllSpace(front) && AllSpace(back) && s == front + Trim(s) + back
    ensures Trim(s) != [] ==> !IsSpace(Trim(s)[0]) && !IsSpace(Trim(s)[|Trim(s)| - 1])
  {
    hide IsSpace, AllSpace, TrimStart, TrimEnd;
    var j := TrimStartMeans(s);
    var mid := TrimStart(s);
    var k := TrimEndMeans(mid);
    front, back := s[..j], mid[k..];
    assert s == s[..j] + s[j..] && mid == mid[..k] + mid[k..];
    assert k > 0 ==> Trim(s)[0] == mid[0] == s[j];
  }

  /** The split is at the first separator. */
  lemma {:induction false} SplitOnceMeans(s: string, sep: char, a: string, b: string)
    ensures SplitOnce(s, sep) == Some((a, b)) <==> sep !in a && s == a + [sep] + b
    ensures SplitOnce(s, sep) == None <==> sep !in s
  {
    if s != [] {
      if s[0] == sep {
        assert s == [] + [sep] + s[1..];
        assert s == a + [sep] + b && a != [] ==> s[0] == a[0];
        if sep !in a && s == a + [sep] + b {
          assert s[1..] == b;
        }
      } else {
        if a != [] {
          SplitOnceMeans(s[1..], sep, a[1..], b);
          if s == a + [sep] + b {
            assert s[1..] == a[1..] + [sep] + b;
            assert [s[0]] + a[1..] == a;
          }
          if SplitOnce(s, sep) == Some((a, b)) {
            assert a == [s[0]] + a[1..];
            assert SplitOnce(s[1..], sep) == Some((a[1..], b));
          }
        } else {
          SplitOnceMeans(s[1..], sep, a, b);
        }
      }
    }
  }

  /** What is left has no separator, and is all of the text or stands after one. */
  lemma {:induction false} AfterLastMeans(s: string, sep: char) returns (front: string)
    ensures sep !in AfterLast(s, sep)
    ensures AfterLast(s, sep) == s || s == front + [sep] + AfterLast(s, sep)
  {
    front := [];
    if s != [] {
      var before, last := s[..|s| - 1], s[|s| - 1];
      if last == sep {
        front := before;
        assert s == front + [sep] + [];
      } else {
        front := AfterLastMeans(before, sep);
        assert before + [last] == s;
      }
    }
  }

  /** Every number up to the maximum is read back from its decimal form, with or without a plus sign; no larger one. */
  lemma ParseUnsignedMeans(n: nat, max: nat)
    ensures ParseUnsigned(Decimal(n), max) == ParseUnsigned("+" + Decimal(n), max) == if n <= max then Some(n) else None
    ensures ParseUnsigned("", max) == ParseUnsigned("+", max) == None
  {
    DecimalRoundTrip(n);
    assert ("+" + Decimal(n))[1..] == Decimal(n);
  }

  /** Anything with a character that is not a digit is refused. */
  lemma {:induction false} OnlyDigitsParse(s: string)
    ensures DigitsValue(s).Some? <==> forall i | 0 <= i < |s| :: '0' <= s[i] <= '9'
  {
    if s != [] {
      OnlyDigitsParse(s[..|s| - 1]);
      assert forall i | 0 <= i < |s| - 1 :: s[..|s| - 1][i] == s[i];
    }
  }

  /** The needle stands somewhere in the hay. */
  lemma ContainsMeans(hay: string, needle: string, front: string, back: string) returns (a: string, b: string)
    ensures Contains(hay, needle) ==> hay == a + needle + b
    ensures hay == front + needle + back ==> Contains(hay, needle)
  {
    a, b := [], [];
    if Contains(hay, needle) {
      var i :| 0 <= i <= |hay| && needle <= hay[i..];
      a, b := hay[..i], hay[i..][|needle|..];
      assert hay == hay[..i] + hay[i..] && hay[i..] == needle + b;
    }
    if hay == front + needle + back {
      assert hay[|front|..] == needle + back;
    }
  }
}
