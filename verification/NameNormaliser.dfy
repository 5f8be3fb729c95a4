/**
 Making a metric name acceptable to Carbon: three replacements, one after the other, which amount to
 a single pass over the name.
 */
module NameNormaliser {
  import opened Text

  predicate IsNameChar(c: char) {
    'a' <= c <= 'z' || 'A' <= c <= 'Z' || '0' <= c <= '9' || c == '_' || c == '-' || c == '.'
  }

  /** Every run of white space becomes one underscore. */
  function ReplaceWhite(s: string): string
    decreases |s|
  {
    if s == "" then ""
    else if IsSpace(s[0]) then "_" + ReplaceWhite(SkipSpaces(s[1..]))
    else [s[0]] + ReplaceWhite(s[1..])
  }

  function ReplaceSlashes(s: string): string {
    if s == "" then "" else [if s[0] == '/' then '-' else s[0]] + ReplaceSlashes(s[1..])
  }

  function KeepNameChars(s: string): string {
    if s == "" then "" else (if IsNameChar(s[0]) then [s[0]] else "") + KeepNameChars(s[1..])
  }

  function ProcessName(name: string): string {
    KeepNameChars(ReplaceSlashes(ReplaceWhite(name)))
  }

  // ---------- one pass ----------

  /** What becomes of one character; `inWhite` says that the one before it was white space. */
  function PassChar(c: char, inWhite: bool): string {
    if IsSpace(c) then (if inWhite then "" else "_")
    else if c == '/' then "-"
    else if IsNameChar(c) then [c]
    else ""
  }

  function OnePass(s: string, inWhite: bool): string {
    if s == "" then "" else PassChar(s[0], inWhite) + OnePass(s[1..], IsSpace(s[0]))
  }

  function AfterWhite(s: string): string {
    KeepNameChars(ReplaceSlashes(s))
  }

  lemma AfterWhiteHead(c: char, s: string)
    ensures AfterWhite([c] + s)
         == (if c == '/' then "-" else if IsNameChar(c) then [c] else "") + AfterWhite(s)
  {
    assert ([c] + s)[1..] == s;
    var d := if c == '/' then '-' else c;
    assert ReplaceSlashes([c] + s) == [d] + ReplaceSlashes(s);
    assert ([d] + ReplaceSlashes(s))[1..] == ReplaceSlashes(s);
  }

  /** White space after white space vanishes in the pass, as the run does in the replacement. */
  lemma {:induction false} PassDropsWhite(s: string)
    ensures OnePass(s, true) == OnePass(SkipSpaces(s), true)
  {
    if s != "" && IsSpace(s[0]) {
      PassDropsWhite(s[1..]);
    }
  }

  lemma {:induction false} DropWhiteStops(s: string)
    ensures SkipSpaces(s) == "" || !IsSpace(SkipSpaces(s)[0])
  {
    if s != "" && IsSpace(s[0]) {
      DropWhiteStops(s[1..]);
    }
  }

  /** The three replacements together are one left-to-right pass. */
  lemma {:induction false} ProcessNameIsOnePass(s: string, inWhite: bool)
    requires inWhite ==> s == "" || !IsSpace(s[0])
    ensures ProcessName(s) == OnePass(s, inWhite)
    decreases |s|
  {
    if s != "" {
      if IsSpace(s[0]) {
        var rest := SkipSpaces(s[1..]);
        DropWhiteStops(s[1..]);
        PassDropsWhite(s[1..]);
        AfterWhiteHead('_', ReplaceWhite(rest));
        ProcessNameIsOnePass(rest, true);
      } else {
        AfterWhiteHead(s[0], ReplaceWhite(s[1..]));
        ProcessNameIsOnePass(s[1..], false);
      }
    }
  }

  // ---------- properties ----------

  lemma {:induction false} PassGivesNameChars(s: string, inWhite: bool)
    ensures forall c :: c in OnePass(s, inWhite) ==> IsNameChar(c)
  {
    if s != "" {
      PassGivesNameChars(s[1..], IsSpace(s[0]));
    }
  }

  lemma {:induction false} PassKeepsNameChars(s: string, inWhite: bool)
    requires forall c :: c in s ==> IsNameChar(c)
    ensures OnePass(s, inWhite) == s
  {
    if s != "" {
      assert s == [s[0]] + s[1..];
      assert s[0] in s;
      assert forall c :: c in s[1..] ==> c in s;
      PassKeepsNameChars(s[1..], IsSpace(s[0]));
    }
  }

  /** Only name characters come out, and names made of them are exactly the ones left unchanged. */
  lemma NamesUnchanged(s: string)
    ensures forall c :: c in ProcessName(s) ==> IsNameChar(c)
    ensures ProcessName(s) == s <==> forall c :: c in s ==> IsNameChar(c)
    ensures ProcessName(ProcessName(s)) == ProcessName(s)
  {
    hide ProcessName;
    ProcessNameIsOnePass(s, false);
    ProcessNameIsOnePass(ProcessName(s), false);
    PassGivesNameChars(s, false);
    PassKeepsNameChars(ProcessName(s), false);
    if forall c :: c in s ==> IsNameChar(c) {
      PassKeepsNameChars(s, false);
    }
  }

  lemma {:induction false} PassAppend(a: string, b: string, inWhite: bool)
    ensures OnePass(a + b, inWhite)
         == OnePass(a, inWhite) + OnePass(b, if a == "" then inWhite else IsSpace(a[|a| - 1]))
  {
    if a == "" {
      assert a + b == b;
    } else {
      assert (a + b)[1..] == a[1..] + b;
      PassAppend(a[1..], b, IsSpace(a[0]));
    }
  }

  /** Names can be normalised in parts exactly when no white space meets at the seam. */
  lemma DistributesOverConcatenation(a: string, b: string)
    ensures ProcessName(a + b) == ProcessName(a) + ProcessName(b)
       <==> !(a != "" && IsSpace(a[|a| - 1]) && b != "" && IsSpace(b[0]))
  {
    hide ProcessName;
    ProcessNameIsOnePass(a + b, false);
    ProcessNameIsOnePass(a, false);
    ProcessNameIsOnePass(b, false);
    PassAppend(a, b, false);
    SeamCases(b);
  }

  lemma SeamCases(b: string)
    ensures b == "" || !IsSpace(b[0]) ==> OnePass(b, true) == OnePass(b, false)
    ensures b != "" && IsSpace(b[0]) ==> |OnePass(b, false)| == |OnePass(b, true)| + 1
  {
  }

  /** White space, character by character. */
  predicate IsWhite(c: char) {
    c in {' ', '\t', '\n', '\r', '\U{0B}', '\U{0C}'}
  }

  /**
   The name after normalising, from the first character on: a run of white space gives one underscore,
   a slash a dash, letters, digits, `_`, `-` and `.` themselves, and the rest nothing.
   */
  lemma NameFromTheFront(white: string, c: char, s: string)
    requires white != "" && (forall w :: w in white ==> IsWhite(w)) && (s == "" || !IsWhite(s[0]))
    ensures ProcessName("") == ""
    ensures ProcessName(white + s) == "_" + ProcessName(s)
    ensures !IsWhite(c) ==>
              ProcessName([c] + s)
              == (if c == '/' then "-"
                  else if 'a' <= c <= 'z' || 'A' <= c <= 'Z' || '0' <= c <= '9' || c in {'_', '-', '.'} then [c]
                  else "") + ProcessName(s)
  {
    assert forall w :: IsWhite(w) <==> IsSpace(w);
    hide ProcessName, IsWhite;
    ProcessNameIsOnePass(s, false);
    ProcessNameIsOnePass([c] + s, false);
    ProcessNameIsOnePass(white + s, false);
    ProcessNameIsOnePass("", false);
    SeamCases(s);
    assert ([c] + s)[1..] == s;
    PassWhite(white, s);
  }

  lemma {:induction false} PassWhite(white: string, s: string)
    requires white != "" && (forall w :: w in white ==> IsSpace(w))
    ensures OnePass(white + s, false) == "_" + OnePass(s, true)
  {
    assert white[0] in white;
    assert (white + s)[1..] == white[1..] + s;
    PassMoreWhite(white[1..], s);
  }

  lemma {:induction false} PassMoreWhite(white: string, s: string)
    requires forall w :: w in white ==> IsSpace(w)
    ensures OnePass(white + s, true) == OnePass(s, true)
  {
    if white == "" {
      assert white + s == s;
    } else {
      assert white[0] in white;
      assert (white + s)[1..] == white[1..] + s;
      PassMoreWhite(white[1..], s);
    }
  }
}
