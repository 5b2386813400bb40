/**
 * The identifier-to-key conversions of the sources. Four copies of one
 * scanning loop exist in the repository; they differ only in which
 * characters they treat as separators and as upper case, lower case and
 * digits (ASCII ranges or the `unicode` tables), and in whether an upper-case
 * letter is written as it is or through `unicode.ToUpper`. `Convention`
 * names the four; `Step` is their common loop body.
 *
 * Each character is classified in Go's order: separator, upper case, lower
 * case, digit, anything else. A separator and "anything else" do the same
 * thing: write one `_` unless one was just written or nothing was written
 * yet. An upper-case letter that ends a lower-case or digit run, or that is
 * the last of an upper-case run followed by a lower-case letter, is preceded
 * by a `_`. One trailing `_` is dropped at the end.
 */
module Naming {
  import opened GoStrings
  import opened Host

  datatype Convention =
      /** `sourceutil.ConvertToUpperSnake`: ASCII classes; `-`, space and `_` separate. */
    | SourceutilUpperSnake
      /** `sourceutil.ConvertToEnvVar`: `unicode` classes; `-` and space separate. */
    | SourceutilEnvVar(rt: Runtime)
      /** `convertToEnvVar` of the environment source: ASCII classes; `-` and space separate. */
    | EnvSourceEnvVar
      /** `convertToUpperSnake` of the dictionary source: `unicode` classes; `-`, white space and `_` separate. */
    | DictUpperSnake(rt: Runtime)

  predicate IsSeparator(conv: Convention, c: char)
  {
    match conv
    case SourceutilUpperSnake => c == '-' || c == ' ' || c == '_'
    case SourceutilEnvVar(_) => c == '-' || c == ' '
    case EnvSourceEnvVar => c == '-' || c == ' '
    case DictUpperSnake(_) => c == '-' || IsSpace(c) || c == '_'
  }

  predicate UpperIn(conv: Convention, c: char)
  {
    if conv.SourceutilEnvVar? || conv.DictUpperSnake? then IsUpper(conv.rt, c) else 'A' <= c <= 'Z'
  }

  predicate LowerIn(conv: Convention, c: char)
  {
    if conv.SourceutilEnvVar? || conv.DictUpperSnake? then IsLower(conv.rt, c) else 'a' <= c <= 'z'
  }

  predicate DigitIn(conv: Convention, c: char)
  {
    if conv.SourceutilEnvVar? || conv.DictUpperSnake? then IsDigit(conv.rt, c) else '0' <= c <= '9'
  }

  /** What is written for an upper-case letter. */
  function UpperOut(conv: Convention, c: char): char
  {
    if conv.DictUpperSnake? then ToUpper(conv.rt, c) else c
  }

  /** What is written for a lower-case letter. */
  function LowerOut(conv: Convention, c: char): char
  {
    if conv.SourceutilEnvVar? || conv.DictUpperSnake? then ToUpper(conv.rt, c)
    else if 'a' <= c <= 'z' then (c as int - 32) as char
    else c
  }

  /** The loop variables: the text built so far and the four flags. */
  datatype Scan = Scan(out: string, lastUnderscore: bool, wroteAny: bool, prevLowerOrDigit: bool, prevUpper: bool)

  const Start := Scan("", false, false, false, false)

  /** A separator or unclassified character: at most one `_`, and never a leading one. */
  function Gap(s: Scan): Scan
  {
    if !s.lastUnderscore && s.wroteAny then Scan(s.out + "_", true, s.wroteAny, false, false)
    else s.(prevLowerOrDigit := false, prevUpper := false)
  }

  /** True when the character after position `i` is lower case. */
  predicate NextLower(conv: Convention, runes: string, i: nat)
  {
    i + 1 < |runes| && LowerIn(conv, runes[i + 1])
  }

  /** The loop body for the character at position `i`. */
  function Step(conv: Convention, runes: string, i: nat, s: Scan): Scan
    requires i < |runes|
  {
    var r := runes[i];
    if IsSeparator(conv, r) then Gap(s)
    else if UpperIn(conv, r) then
      var boundary := (s.prevLowerOrDigit || (s.prevUpper && NextLower(conv, runes, i)))
        && !s.lastUnderscore && s.wroteAny;
      Scan((if boundary then s.out + "_" else s.out) + [UpperOut(conv, r)], false, true, false, true)
    else if LowerIn(conv, r) then Scan(s.out + [LowerOut(conv, r)], false, true, true, false)
    else if DigitIn(conv, r) then Scan(s.out + [r], false, true, true, false)
    else Gap(s)
  }

  /** The loop variables at the end of the text, from state `s` at position `i` on. */
  function ScanFrom(conv: Convention, runes: string, i: nat, s: Scan): Scan
    requires i <= |runes|
    decreases |runes| - i
  {
    if i == |runes| then s else ScanFrom(conv, runes, i + 1, Step(conv, runes, i, s))
  }

  /** The text without one trailing `_`. */
  function DropTrailingUnderscore(s: string): (r: string)
  {
    if |s| > 0 && s[|s| - 1] == '_' then s[..|s| - 1] else s
  }

  /** The converted name. */
  function SnakeName(conv: Convention, name: string): string
  {
    DropTrailingUnderscore(ScanFrom(conv, name, 0, Start).out)
  }

  /** The scanning loop shared by the four conversions. */
  method ConvertName(conv: Convention, name: string) returns (s: string)
    ensures s == SnakeName(conv, name)
  {
    var out := "";
    var lastUnderscore, wroteAny, prevLowerOrDigit, prevUpper := false, false, false, false;
    var runes := name;
    for i := 0 to |runes|
      invariant ScanFrom(conv, runes, i, Scan(out, lastUnderscore, wroteAny, prevLowerOrDigit, prevUpper))
        == ScanFrom(conv, runes, 0, Start)
    {
      var r := runes[i];
      if IsSeparator(conv, r) {
        if !lastUnderscore && wroteAny {
          out := out + "_";
          lastUnderscore := true;
        }
        prevLowerOrDigit, prevUpper := false, false;
        continue;
      }
      if UpperIn(conv, r) {
        var nextLower := false;
        if i + 1 < |runes| {
          nextLower := LowerIn(conv, runes[i + 1]);
        }
        if (prevLowerOrDigit || (prevUpper && nextLower)) && !lastUnderscore && wroteAny {
          out := out + "_";
        }
        out := out + [UpperOut(conv, r)];
        lastUnderscore, wroteAny, prevLowerOrDigit, prevUpper := false, true, false, true;
        continue;
      }
      if LowerIn(conv, r) {
        out := out + [LowerOut(conv, r)];
        lastUnderscore, wroteAny, prevLowerOrDigit, prevUpper := false, true, true, false;
        continue;
      }
      if DigitIn(conv, r) {
        out := out + [r];
        lastUnderscore, wroteAny, prevLowerOrDigit, prevUpper := false, true, true, false;
        continue;
      }
      if !lastUnderscore && wroteAny {
        out := out + "_";
        lastUnderscore := true;
      }
      prevLowerOrDigit, prevUpper := false, false;
    }
    s := out;
    if |s| > 0 && s[|s| - 1] == '_' {
      s := s[..|s| - 1];
    }
  }

  /** No two `_` in a row. */
  predicate NoDoubleUnderscore(s: string)
  {
    forall i :: 0 <= i < |s| - 1 ==> s[i] != '_' || s[i + 1] != '_'
  }

  /**
   * The `unicode.ToUpper` table never yields `_` (true of Unicode); the
   * ASCII conventions need nothing.
   */
  predicate WritesNoUnderscore(conv: Convention)
  {
    (conv.SourceutilEnvVar? || conv.DictUpperSnake?) ==>
      forall c :: !IsAsciiChar(c) ==> conv.rt.toUpperBeyondAscii(c) != '_'
  }

  /** The shape the loop variables keep. */
  predicate Shaped(s: Scan)
  {
    && (s.wroteAny <==> s.out != [])
    && (s.out != [] ==> s.out[0] != '_')
    && (s.lastUnderscore <==> (s.out != [] && s.out[|s.out| - 1] == '_'))
    && NoDoubleUnderscore(s.out)
  }

  /** A letter or digit is never written as `_`. */
  lemma WrittenIsNotUnderscore(conv: Convention, r: char)
    requires WritesNoUnderscore(conv)
    ensures UpperIn(conv, r) ==> UpperOut(conv, r) != '_'
    ensures LowerIn(conv, r) ==> LowerOut(conv, r) != '_'
    ensures DigitIn(conv, r) ==> r != '_'
  {
  }

  /** Appending a character that is not `_` keeps the shape. */
  lemma AppendLetter(s: Scan, c: char, prevLowerOrDigit: bool, prevUpper: bool)
    requires Shaped(s) && c != '_'
    ensures Shaped(Scan(s.out + [c], false, true, prevLowerOrDigit, prevUpper))
  {
    var o := s.out + [c];
    forall i | 0 <= i < |o| - 1 ensures o[i] != '_' || o[i + 1] != '_' {
      if i + 1 < |s.out| {
        assert o[i] == s.out[i] && o[i + 1] == s.out[i + 1];
      }
    }
  }

  /** One loop step keeps the shape. */
  lemma StepKeepsShape(conv: Convention, runes: string, i: nat, s: Scan)
    requires i < |runes| && WritesNoUnderscore(conv) && Shaped(s)
    ensures Shaped(Step(conv, runes, i, s))
  {
    var r := runes[i];
    WrittenIsNotUnderscore(conv, r);
    if IsSeparator(conv, r) || !(UpperIn(conv, r) || LowerIn(conv, r) || DigitIn(conv, r)) {
      GapKeepsShape(s);
    } else if UpperIn(conv, r) {
      var boundary := (s.prevLowerOrDigit || (s.prevUpper && NextLower(conv, runes, i)))
        && !s.lastUnderscore && s.wroteAny;
      if boundary {
        var s1 := Scan(s.out + "_", true, true, false, false);
        assert Shaped(s1) by { GapKeepsShape(s); assert Gap(s) == s1; }
        AppendLetter(s1, UpperOut(conv, r), false, true);
      } else {
        AppendLetter(s, UpperOut(conv, r), false, true);
      }
    } else if LowerIn(conv, r) {
      AppendLetter(s, LowerOut(conv, r), true, false);
    } else {
      AppendLetter(s, r, true, false);
    }
  }

  /** A separator keeps the shape. */
  lemma GapKeepsShape(s: Scan)
    requires Shaped(s)
    ensures Shaped(Gap(s))
  {
    if !s.lastUnderscore && s.wroteAny {
      var o := s.out + "_";
      forall i | 0 <= i < |o| - 1 ensures o[i] != '_' || o[i + 1] != '_' {
        if i + 1 < |s.out| {
          assert o[i] == s.out[i] && o[i + 1] == s.out[i + 1];
        }
      }
    }
  }

  /** The rest of a scan keeps the shape of the state it starts from. */
  lemma {:induction false} ScanShaped(conv: Convention, runes: string, i: nat, s: Scan)
    requires i <= |runes| && WritesNoUnderscore(conv) && Shaped(s)
    ensures Shaped(ScanFrom(conv, runes, i, s))
    decreases |runes| - i
  {
    if i < |runes| {
      StepKeepsShape(conv, runes, i, s);
      ScanShaped(conv, runes, i + 1, Step(conv, runes, i, s));
    }
  }

  /** A converted name never starts or ends with `_` and never holds two in a row. */
  lemma SnakeNameShape(conv: Convention, name: string)
    requires WritesNoUnderscore(conv)
    ensures var r := SnakeName(conv, name);
      && (r != [] ==> r[0] != '_' && r[|r| - 1] != '_')
      && NoDoubleUnderscore(r)
  {
    var o := ScanFrom(conv, name, 0, Start).out;
    ScanShaped(conv, name, 0, Start);
    var r := SnakeName(conv, name);
    if |o| > 0 && o[|o| - 1] == '_' {
      assert r == o[..|o| - 1];
      if |r| > 0 {
        assert r[|r| - 1] == o[|o| - 2];
        assert r[0] == o[0];
      }
      forall i | 0 <= i < |r| - 1 ensures r[i] != '_' || r[i + 1] != '_' {
        assert r[i] == o[i] && r[i + 1] == o[i + 1];
      }
    }
  }

  /** The two conventions that classify by ASCII ranges. */
  predicate IsAsciiConvention(conv: Convention)
  {
    conv.SourceutilUpperSnake? || conv.EnvSourceEnvVar?
  }

  /** Upper-case ASCII letters, digits and `_`. */
  predicate IsKeyChar(c: char)
  {
    'A' <= c <= 'Z' || '0' <= c <= '9' || c == '_'
  }

  /** Only upper-case ASCII letters, digits and `_`. */
  predicate AllKeyChars(o: string)
  {
    forall j :: 0 <= j < |o| ==> IsKeyChar(o[j])
  }

  /** An ASCII-class scan adds only upper-case ASCII letters, digits and `_`. */
  lemma {:induction false} AsciiScanChars(conv: Convention, runes: string, i: nat, s: Scan)
    requires i <= |runes| && IsAsciiConvention(conv) && AllKeyChars(s.out)
    ensures AllKeyChars(ScanFrom(conv, runes, i, s).out)
    decreases |runes| - i
  {
    if i < |runes| {
      var t := Step(conv, runes, i, s);
      assert |s.out| <= |t.out| && t.out[..|s.out|] == s.out;
      forall j | 0 <= j < |t.out| ensures IsKeyChar(t.out[j]) {
        if j < |s.out| {
          assert t.out[j] == s.out[j];
        }
      }
      AsciiScanChars(conv, runes, i + 1, t);
    }
  }

  /** The ASCII conventions produce only upper-case ASCII letters, digits and `_`: letters come out upper case. */
  lemma AsciiSnakeChars(conv: Convention, name: string)
    requires IsAsciiConvention(conv)
    ensures AllKeyChars(SnakeName(conv, name))
  {
    AsciiScanChars(conv, name, 0, Start);
    var o := ScanFrom(conv, name, 0, Start).out;
    var r := SnakeName(conv, name);
    forall j | 0 <= j < |r| ensures IsKeyChar(r[j]) {
      assert r[j] == o[j];
    }
  }

  /** On an ASCII character all four conventions take the same step. */
  lemma AsciiStepAgrees(conv: Convention, runes: string, i: nat, s: Scan)
    requires i < |runes| && IsAsciiChar(runes[i]) && (i + 1 < |runes| ==> IsAsciiChar(runes[i + 1]))
    ensures Step(conv, runes, i, s) == Step(EnvSourceEnvVar, runes, i, s)
  {
    assert NextLower(conv, runes, i) == NextLower(EnvSourceEnvVar, runes, i);
  }

  /** On ASCII text the four conventions scan alike. */
  lemma {:induction false} AsciiScanAgrees(conv: Convention, runes: string, i: nat, s: Scan)
    requires i <= |runes| && IsAscii(runes)
    ensures ScanFrom(conv, runes, i, s) == ScanFrom(EnvSourceEnvVar, runes, i, s)
    decreases |runes| - i
  {
    if i < |runes| {
      AsciiStepAgrees(conv, runes, i, s);
      AsciiScanAgrees(conv, runes, i + 1, Step(conv, runes, i, s));
    }
  }

  /** On ASCII text all four conversions give the same name. */
  lemma AsciiNamesAgree(conv: Convention, name: string)
    requires IsAscii(name)
    ensures SnakeName(conv, name) == SnakeName(EnvSourceEnvVar, name)
  {
    AsciiScanAgrees(conv, name, 0, Start);
  }

  /** The environment source's conversion drops every character outside ASCII. */
  lemma {:induction false} EnvScanSkipsNonAscii(runes: string, i: nat)
    requires i <= |runes|
    requires forall j :: 0 <= j < |runes| ==> !IsAsciiChar(runes[j])
    ensures ScanFrom(EnvSourceEnvVar, runes, i, Start) == Start
    decreases |runes| - i
  {
    if i < |runes| {
      assert Step(EnvSourceEnvVar, runes, i, Start) == Start;
      EnvScanSkipsNonAscii(runes, i + 1);
    }
  }

  /** A name written only in non-ASCII letters, such as "пример", converts to the empty key. */
  lemma EnvDropsNonAscii(name: string)
    requires forall j :: 0 <= j < |name| ==> !IsAsciiChar(name[j])
    ensures SnakeName(EnvSourceEnvVar, name) == ""
  {
    EnvScanSkipsNonAscii(name, 0);
  }

  /** An upper-case ASCII letter in the environment source's conversion. */
  lemma EnvUpperStep(runes: string, i: nat, s: Scan)
    requires i < |runes| && 'A' <= runes[i] <= 'Z'
    ensures var boundary := (s.prevLowerOrDigit || (s.prevUpper && NextLower(EnvSourceEnvVar, runes, i)))
        && !s.lastUnderscore && s.wroteAny;
      Step(EnvSourceEnvVar, runes, i, s) ==
        Scan((if boundary then s.out + "_" else s.out) + [runes[i]], false, true, false, true)
  {
  }

  /** A lower-case ASCII letter in the environment source's conversion. */
  lemma EnvLowerStep(runes: string, i: nat, s: Scan)
    requires i < |runes| && 'a' <= runes[i] <= 'z'
    ensures Step(EnvSourceEnvVar, runes, i, s) == Scan(s.out + [(runes[i] as int - 32) as char], false, true, true, false)
  {
  }

  /** An acronym run ends before the upper-case letter that starts a lower-case word: "HTTPServer" gives "HTTP_SERVER". */
  lemma AcronymExample()
    ensures SnakeName(EnvSourceEnvVar, "HTTPServer") == "HTTP_SERVER"
  {
    var c, n := EnvSourceEnvVar, "HTTPServer";
    var s4 := Scan("HTTP", false, true, false, true);
    var s5 := Scan("HTTP_S", false, true, false, true);
    AcronymHead();
    assert Step(c, n, 4, s4) == s5 by {
      EnvUpperStep(n, 4, s4);
      assert NextLower(c, n, 4);
      assert s4.out + "_" + ['S'] == s5.out;
    }
    AcronymTail(s5);
  }

  /** The upper-case run "HTTP" is copied without a break. */
  lemma AcronymHead()
    ensures ScanFrom(EnvSourceEnvVar, "HTTPServer", 0, Start)
      == ScanFrom(EnvSourceEnvVar, "HTTPServer", 4, Scan("HTTP", false, true, false, true))
  {
    var c, n := EnvSourceEnvVar, "HTTPServer";
    var s1 := Scan("H", false, true, false, true);
    var s2 := Scan("HT", false, true, false, true);
    var s3 := Scan("HTT", false, true, false, true);
    var s4 := Scan("HTTP", false, true, false, true);
    assert Step(c, n, 0, Start) == s1 by { EnvUpperStep(n, 0, Start); }
    assert Step(c, n, 1, s1) == s2 by { EnvUpperStep(n, 1, s1); }
    assert Step(c, n, 2, s2) == s3 by { EnvUpperStep(n, 2, s2); }
    assert Step(c, n, 3, s3) == s4 by { EnvUpperStep(n, 3, s3); }
  }

  /** The lower-case word "erver" after "HTTP_S". */
  lemma AcronymTail(s5: Scan)
    requires s5 == Scan("HTTP_S", false, true, false, true)
    ensures ScanFrom(EnvSourceEnvVar, "HTTPServer", 5, s5).out == "HTTP_SERVER"
  {
    var c, n := EnvSourceEnvVar, "HTTPServer";
    var s6 := Scan("HTTP_SE", false, true, true, false);
    var s7 := Scan("HTTP_SER", false, true, true, false);
    var s8 := Scan("HTTP_SERV", false, true, true, false);
    var s9 := Scan("HTTP_SERVE", false, true, true, false);
    var s10 := Scan("HTTP_SERVER", false, true, true, false);
    EnvLowerStep(n, 5, s5);
    EnvLowerStep(n, 6, s6);
    EnvLowerStep(n, 7, s7);
    EnvLowerStep(n, 8, s8);
    EnvLowerStep(n, 9, s9);
    assert ScanFrom(c, n, 5, s5) == ScanFrom(c, n, 10, s10);
  }

  /** Separator runs collapse to one `_` and vanish at both ends: "--a--b--" gives "A_B". */
  lemma SeparatorExample()
    ensures SnakeName(EnvSourceEnvVar, "--a--b--") == "A_B"
  {
    var c, n := EnvSourceEnvVar, "--a--b--";
    var a := Scan("A", false, true, true, false);
    var a_ := Scan("A_", true, true, false, false);
    var b := Scan("A_B", false, true, true, false);
    var b_ := Scan("A_B_", true, true, false, false);
    assert Step(c, n, 0, Start) == Start;
    assert Step(c, n, 1, Start) == Start;
    EnvLowerStep(n, 2, Start);
    assert Step(c, n, 3, a) == a_;
    assert Step(c, n, 4, a_) == a_;
    EnvLowerStep(n, 5, a_);
    assert Step(c, n, 6, b) == b_;
    assert Step(c, n, 7, b_) == b_;
    assert ScanFrom(c, n, 0, Start) == ScanFrom(c, n, 8, b_);
  }
}
