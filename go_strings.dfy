/**
 * The parts of Go's `strings` and `unicode` packages that the population engine
 * relies on, on strings modelled as sequences of Unicode code points.
 */
module GoStrings {

  /** One byte of a Go string or byte slice. */
  type byte = x: int | 0 <= x < 256

  /** `unicode.IsSpace`: the White_Space characters of the Latin-1 range and of Unicode. */
  predicate IsSpace(c: char)
  {
    || c == ' ' || c == '\t' || c == '\n' || c == '\U{000B}' || c == '\U{000C}' || c == '\r'
    || c == '\U{0085}' || c == '\U{00A0}' || c == '\U{1680}'
    || ('\U{2000}' <= c <= '\U{200A}')
    || c == '\U{2028}' || c == '\U{2029}' || c == '\U{202F}' || c == '\U{205F}' || c == '\U{3000}'
  }

  /** The number of white-space characters at the start of `s`. */
  function LeadingSpaces(s: string): (k: nat)
    ensures k <= |s|
    ensures k < |s| ==> !IsSpace(s[k])
  {
    if |s| > 0 && IsSpace(s[0]) then 1 + LeadingSpaces(s[1..]) else 0
  }

  /** The length of `s` once its trailing white space is cut off. */
  function WithoutTrailingSpaces(s: string): (k: nat)
    ensures k <= |s|
    ensures k > 0 ==> !IsSpace(s[k - 1])
  {
    if |s| > 0 && IsSpace(s[|s| - 1]) then WithoutTrailingSpaces(s[..|s| - 1]) else |s|
  }

  /**
   * `strings.TrimSpace`: the slice of `s` between its leading and its trailing
   * white space, with the interior kept as it is.
   */
  function TrimSpace(s: string): (r: string)
    ensures |r| <= |s|
    ensures r != [] ==> !IsSpace(r[0]) && !IsSpace(r[|r| - 1])
  {
    var rest := s[LeadingSpaces(s)..];
    rest[..WithoutTrailingSpaces(rest)]
  }

  /** A string without white space at either end is its own trimmed form. */
  lemma TrimSpaceOfTrimmed(s: string)
    requires s == [] || (!IsSpace(s[0]) && !IsSpace(s[|s| - 1]))
    ensures TrimSpace(s) == s
  {
    if s != [] {
      assert LeadingSpaces(s) == 0;
      assert WithoutTrailingSpaces(s) == |s|;
    }
  }

  /** Trimming twice is trimming once. */
  lemma TrimSpaceIdempotent(s: string)
    ensures TrimSpace(TrimSpace(s)) == TrimSpace(s)
  {
    TrimSpaceOfTrimmed(TrimSpace(s));
  }

  predicate AllSpaces(s: string)
  {
    forall i :: 0 <= i < |s| ==> IsSpace(s[i])
  }

  lemma {:induction false} LeadingSpacesAfter(pre: string, x: string)
    requires AllSpaces(pre)
    ensures LeadingSpaces(pre + x) == |pre| + LeadingSpaces(x)
    decreases |pre|
  {
    if pre == [] {
      assert pre + x == x;
    } else {
      assert (pre + x)[1..] == pre[1..] + x;
      LeadingSpacesAfter(pre[1..], x);
    }
  }

  lemma {:induction false} TrailingSpacesBefore(x: string, post: string)
    requires AllSpaces(post)
    ensures WithoutTrailingSpaces(x + post) == WithoutTrailingSpaces(x)
    decreases |post|
  {
    if post == [] {
      assert x + post == x;
    } else {
      var y := x + post;
      assert y[..|y| - 1] == x + post[..|post| - 1];
      TrailingSpacesBefore(x, post[..|post| - 1]);
    }
  }

  /** White space around a trimmed string is exactly what `TrimSpace` removes. */
  lemma TrimSpacePadded(pre: string, s: string, post: string)
    requires AllSpaces(pre) && AllSpaces(post)
    requires s == [] || (!IsSpace(s[0]) && !IsSpace(s[|s| - 1]))
    ensures TrimSpace(pre + s + post) == s
  {
    var whole := pre + s + post;
    assert whole == pre + (s + post);
    LeadingSpacesAfter(pre, s + post);
    if s == [] {
      assert s + post == post;
      assert LeadingSpaces(post) == |post|;
    } else {
      assert (s + post)[0] == s[0];
      assert whole[|pre|..] == s + post;
      TrailingSpacesBefore(s, post);
      assert WithoutTrailingSpaces(s) == |s|;
    }
  }

  /** `strings.HasPrefix`. */
  predicate HasPrefix(s: string, prefix: string)
  {
    |prefix| <= |s| && s[..|prefix|] == prefix
  }

  /** `strings.IndexByte` for an ASCII byte: the first index of `c` in `s`, or -1. */
  function IndexByte(s: string, c: char): (k: int)
    ensures -1 <= k < |s|
    ensures k >= 0 ==> s[k] == c && forall j :: 0 <= j < k ==> s[j] != c
    ensures k == -1 ==> forall j :: 0 <= j < |s| ==> s[j] != c
  {
    if |s| == 0 then -1
    else if s[0] == c then 0
    else var k := IndexByte(s[1..], c); if k < 0 then -1 else k + 1
  }

  /** True when `sep` occurs in `s` at position `i`. */
  predicate OccursAt(s: string, sep: string, i: nat)
  {
    i + |sep| <= |s| && s[i..i + |sep|] == sep
  }

  /** An occurrence in `s` past its first character is an occurrence in the tail, one place earlier. */
  lemma OccursAtTail(s: string, sep: string)
    requires |s| > 0
    ensures forall j :: 1 <= j <= |s| ==> (OccursAt(s, sep, j) <==> OccursAt(s[1..], sep, j - 1))
  {
    forall j | 1 <= j <= |s| ensures OccursAt(s, sep, j) <==> OccursAt(s[1..], sep, j - 1) {
      if j + |sep| <= |s| {
        var t := s[1..];
        var a, b := s[j..j + |sep|], t[j - 1..j - 1 + |sep|];
        forall i | 0 <= i < |sep| ensures a[i] == b[i] {
          assert t[j - 1 + i] == s[j + i];
        }
        assert a == b;
      }
    }
  }

  /** `strings.Index`: the first position at which `sep` occurs in `s`, or -1. */
  function Index(s: string, sep: string): (k: int)
    ensures -1 <= k <= |s|
    ensures k >= 0 ==> OccursAt(s, sep, k) && forall j :: 0 <= j < k ==> !OccursAt(s, sep, j)
    ensures k == -1 ==> forall j :: 0 <= j <= |s| ==> !OccursAt(s, sep, j)
  {
    if OccursAt(s, sep, 0) then 0
    else if |s| == 0 then -1
    else
      var k := Index(s[1..], sep);
      OccursAtTail(s, sep);
      if k < 0 then -1 else k + 1
  }

  /** `strings.Contains`. */
  predicate Contains(s: string, sub: string)
  {
    Index(s, sub) >= 0
  }

  /** `strings.ContainsAny`: some character of `s` is one of `chars`. */
  predicate ContainsAny(s: string, chars: string)
  {
    exists i :: 0 <= i < |s| && s[i] in chars
  }

  /** `strings.LastIndexAny`: the last index of a character of `chars` in `s`, or -1. */
  function LastIndexAny(s: string, chars: string): (k: int)
    ensures -1 <= k < |s|
    ensures k >= 0 ==> s[k] in chars && forall j :: k < j < |s| ==> s[j] !in chars
    ensures k == -1 ==> forall j :: 0 <= j < |s| ==> s[j] !in chars
  {
    if |s| == 0 then -1
    else if s[|s| - 1] in chars then |s| - 1
    else LastIndexAny(s[..|s| - 1], chars)
  }

  /**
   * `strings.Split` for a non-empty separator: the pieces of `s` between the
   * non-overlapping occurrences of `sep`, found from left to right.
   */
  function Split(s: string, sep: string): (parts: seq<string>)
    requires |sep| > 0
    ensures |parts| >= 1
    decreases |s|
  {
    var k := Index(s, sep);
    if k < 0 then [s] else [s[..k]] + Split(s[k + |sep|..], sep)
  }

  /** `strings.Join`. */
  function Join(parts: seq<string>, sep: string): string
  {
    if |parts| == 0 then ""
    else if |parts| == 1 then parts[0]
    else parts[0] + sep + Join(parts[1..], sep)
  }

  /** Joining a list with a new first element puts the element and a separator in front. */
  lemma JoinCons(head: string, tail: seq<string>, sep: string)
    requires |tail| >= 1
    ensures Join([head] + tail, sep) == head + sep + Join(tail, sep)
  {
    var parts := [head] + tail;
    assert parts[0] == head && parts[1..] == tail;
  }

  /** Where `sep` occurs at `k`, the string is the part before, `sep`, and the part after. */
  lemma Reassemble(s: string, sep: string, k: nat)
    requires OccursAt(s, sep, k)
    ensures s == s[..k] + sep + s[k + |sep|..]
  {
    assert s == s[..k] + s[k..k + |sep|] + s[k + |sep|..];
  }

  /** Splitting and re-joining with the same separator gives the original string back. */
  lemma {:induction false} JoinSplit(s: string, sep: string)
    requires |sep| > 0
    ensures Join(Split(s, sep), sep) == s
    decreases |s|
  {
    var k := Index(s, sep);
    if k >= 0 {
      var rest := s[k + |sep|..];
      var tail := Split(rest, sep);
      assert Split(s, sep) == [s[..k]] + tail;
      JoinSplit(rest, sep);
      JoinCons(s[..k], tail, sep);
      Reassemble(s, sep, k);
    }
  }

  /** Joining pieces that do not contain the separator character and splitting again gives the pieces back. */
  lemma {:induction false} SplitJoin(parts: seq<string>, c: char)
    requires |parts| >= 1
    requires forall i :: 0 <= i < |parts| ==> c !in parts[i]
    ensures Split(Join(parts, [c]), [c]) == parts
    decreases |parts|
  {
    var head := parts[0];
    forall j | 0 <= j < |head| ensures !OccursAt(head, [c], j) {
      assert head[j] in head;
      assert head[j..j + 1] == [head[j]];
    }
    if |parts| == 1 {
      assert !OccursAt(head, [c], |head|);
    } else {
      var rest := Join(parts[1..], [c]);
      var s := head + [c] + rest;
      assert Join(parts, [c]) == s;
      assert OccursAt(s, [c], |head|) by { assert s[|head|..|head| + 1] == [c]; }
      forall j | 0 <= j < |head| ensures !OccursAt(s, [c], j) {
        assert s[j] == head[j] && head[j] in head;
        assert s[j..j + 1] == [s[j]];
      }
      assert Index(s, [c]) == |head|;
      assert s[..|head|] == head && s[|head| + 1..] == rest;
      SplitJoin(parts[1..], c);
    }
  }

  /** A join of non-empty pieces starts with the first piece's first character and ends with the last piece's last. */
  lemma {:induction false} JoinEnds(parts: seq<string>, sep: string)
    requires |parts| >= 1
    requires forall i :: 0 <= i < |parts| ==> parts[i] != []
    ensures Join(parts, sep) != []
    ensures Join(parts, sep)[0] == parts[0][0]
    ensures Join(parts, sep)[|Join(parts, sep)| - 1] == parts[|parts| - 1][|parts[|parts| - 1]| - 1]
    decreases |parts|
  {
    if |parts| > 1 {
      JoinEnds(parts[1..], sep);
    }
  }

  /** No piece of a split contains the separator character. */
  lemma {:induction false} SplitPiecesAvoidSeparator(s: string, c: char)
    ensures forall p :: p in Split(s, [c]) ==> c !in p
    decreases |s|
  {
    var k := Index(s, [c]);
    if k < 0 {
      forall j | 0 <= j < |s| ensures s[j] != c { assert !OccursAt(s, [c], j); }
    } else {
      forall j | 0 <= j < k ensures s[j] != c { assert !OccursAt(s, [c], j); }
      SplitPiecesAvoidSeparator(s[k + 1..], c);
    }
  }

  /** The decimal digits of a natural number, most significant first, as `strconv.Itoa` writes them. */
  function NatToString(n: nat): (r: string)
    ensures |r| >= 1
    ensures forall i :: 0 <= i < |r| ==> '0' <= r[i] <= '9'
    decreases n
  {
    var d := ['0' + (n % 10) as char];
    if n < 10 then d else NatToString(n / 10) + d
  }

  /** `strconv.Itoa` / `fmt`'s `%d`. */
  function IntToString(i: int): string
  {
    if i < 0 then "-" + NatToString(-i) else NatToString(i)
  }

  /** The UTF-8 encoding of one code point. */
  function Utf8Rune(c: char): (bs: seq<byte>)
    ensures 1 <= |bs| <= 4
    ensures (c as int) < 0x80 ==> bs == [c as int]
  {
    var n := c as int;
    if n < 0x80 then [n]
    else if n < 0x800 then [0xC0 + n / 0x40, 0x80 + n % 0x40]
    else if n < 0x10000 then [0xE0 + n / 0x1000, 0x80 + (n / 0x40) % 0x40, 0x80 + n % 0x40]
    else [0xF0 + n / 0x40000, 0x80 + (n / 0x1000) % 0x40, 0x80 + (n / 0x40) % 0x40, 0x80 + n % 0x40]
  }

  /** `[]byte(s)`: the UTF-8 encoding of a string. */
  function Utf8(s: string): (bs: seq<byte>)
    ensures |bs| >= |s|
  {
    if s == [] then [] else Utf8Rune(s[0]) + Utf8(s[1..])
  }

  /** True when every character of `s` is ASCII. */
  predicate IsAscii(s: string)
  {
    forall i :: 0 <= i < |s| ==> (s[i] as int) < 0x80
  }

  /** For ASCII text, `[]byte(s)` has one byte per character: the character's code. */
  lemma {:induction false} Utf8OfAscii(s: string)
    requires IsAscii(s)
    ensures |Utf8(s)| == |s|
    ensures forall i :: 0 <= i < |s| ==> Utf8(s)[i] == s[i] as int
  {
    if s != [] {
      Utf8OfAscii(s[1..]);
    }
  }
}
