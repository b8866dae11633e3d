/**
  `FormValidator.sanitizeInput` (script.js:270-276): every submitted string value loses its
  `<` and `>`, then the case-insensitive occurrences of `javascript:` found in one left-to-right
  pass, then its surrounding white space; a value that is not a string passes through.
 */
module Sanitize {
  import opened JsText

  /** A `FormData` entry value: a string, or a file (known here only by its name). */
  datatype FormValue = Text(text: string) | File(fileName: string)

  predicate NoAngles(s: string) {
    forall k | 0 <= k < |s| :: s[k] != '<' && s[k] != '>'
  }

  /** `.replace(/[<>]/g, '')`: every `<` and `>` goes, every other character keeps its count. */
  function StripAngles(s: string): (r: string)
    ensures NoAngles(r)
  {
    if s == [] then []
    else (if s[0] == '<' || s[0] == '>' then [] else [s[0]]) + StripAngles(s[1..])
  }

  /** StripAngles removes the angle brackets and nothing else: every other character keeps its count. */
  lemma {:induction false} StripAnglesCounts(s: string, c: char)
    requires c != '<' && c != '>'
    ensures multiset(StripAngles(s))[c] == multiset(s)[c]
  {
    if s != [] {
      assert s == [s[0]] + s[1..];
      StripAnglesCounts(s[1..], c);
    }
  }

  const Scheme := "javascript:"

  /** `/javascript:/i` matches at position `i`: ASCII letters compare without regard to case. */
  predicate SchemeAt(s: string, i: nat) {
    i + |Scheme| <= |s| && forall k | 0 <= k < |Scheme| :: AsciiLower(s[i + k]) == Scheme[k]
  }

  /**
    `.replace(/javascript:/gi, '')`: the scan goes left to right and, after removing a match,
    resumes right after it, so matches do not overlap and the text that closes up around a
    removal is not looked at again. The result is made of characters of `s` only.
   */
  function RemoveScheme(s: string): (r: string)
    decreases |s|
  {
    if s == [] then []
    else if SchemeAt(s, 0) then RemoveScheme(s[|Scheme|..])
    else [s[0]] + RemoveScheme(s[1..])
  }

  /** The removal only ever drops characters: the result is made of characters of `s`. */
  lemma {:induction false} RemoveSchemeShrinks(s: string)
    ensures multiset(RemoveScheme(s)) <= multiset(s)
    decreases |s|
  {
    if s != [] {
      if SchemeAt(s, 0) {
        assert s == s[..|Scheme|] + s[|Scheme|..];
        RemoveSchemeShrinks(s[|Scheme|..]);
      } else {
        assert s == [s[0]] + s[1..];
        RemoveSchemeShrinks(s[1..]);
      }
    }
  }

  /** The string chain of `sanitizeInput`. */
  function SanitizeText(s: string): string {
    Trim(RemoveScheme(StripAngles(s)))
  }

  /** `sanitizeInput`: strings are cleaned, anything else is returned as it came. */
  function SanitizeInput(v: FormValue): (r: FormValue)
    ensures v.File? ==> r == v
    ensures v.Text? <==> r.Text?
  {
    match v
    case File(_) => v
    case Text(s) => Text(SanitizeText(s))
  }

  /** Dropping the first character moves every match one place to the left. */
  lemma SchemeAtShift(s: string, i: nat)
    requires s != []
    ensures SchemeAt(s[1..], i) <==> SchemeAt(s, i + 1)
  {
  }

  /** A string without any match of the scheme passes the removal unchanged. */
  lemma {:induction false} RemoveSchemeIdentity(s: string)
    requires forall i: nat | i < |s| :: !SchemeAt(s, i)
    ensures RemoveScheme(s) == s
  {
    if s != [] {
      forall i: nat | i < |s[1..]| ensures !SchemeAt(s[1..], i) {
        SchemeAtShift(s, i);
      }
      RemoveSchemeIdentity(s[1..]);
    }
  }

  /** No character of `s` folds to `j`, so no match of the scheme can start inside it. */
  predicate NoJ(s: string) {
    forall k | 0 <= k < |s| :: AsciiLower(s[k]) != 'j'
  }

  /** A stretch with no `j` in front is copied as it is, and the scan goes on after it. */
  lemma {:induction false} RemoveSchemeSkipsNoJ(s: string, t: string)
    requires NoJ(s)
    ensures RemoveScheme(s + t) == s + RemoveScheme(t)
  {
    if s != [] {
      var st := s + t;
      assert !SchemeAt(st, 0) by { assert AsciiLower(st[0]) != Scheme[0]; }
      assert st[1..] == s[1..] + t;
      RemoveSchemeSkipsNoJ(s[1..], t);
      calc {
        RemoveScheme(st);
        [st[0]] + RemoveScheme(st[1..]);
        [s[0]] + (s[1..] + RemoveScheme(t));
        { assert [s[0]] + s[1..] == s; }
        s + RemoveScheme(t);
      }
    } else {
      assert s + t == t;
    }
  }

  /** The angle brackets of a concatenation are those of its two parts. */
  lemma {:induction false} StripAnglesAppend(s: string, t: string)
    ensures StripAngles(s + t) == StripAngles(s) + StripAngles(t)
  {
    if s != [] {
      var st := s + t;
      assert st[1..] == s[1..] + t;
      StripAnglesAppend(s[1..], t);
      var h := if s[0] == '<' || s[0] == '>' then [] else [s[0]];
      calc {
        StripAngles(st);
        h + StripAngles(st[1..]);
        h + (StripAngles(s[1..]) + StripAngles(t));
        (h + StripAngles(s[1..])) + StripAngles(t);
        StripAngles(s) + StripAngles(t);
      }
    } else {
      assert s + t == t;
    }
  }

  /** A string without angle brackets passes their removal unchanged. */
  lemma {:induction false} StripAnglesIdentity(s: string)
    requires NoAngles(s)
    ensures StripAngles(s) == s
  {
    if s != [] {
      StripAnglesIdentity(s[1..]);
    }
  }

  /** A sanitized value holds no `<` or `>` and neither starts nor ends with white space. */
  lemma SanitizeTextSafe(s: string)
    ensures NoAngles(SanitizeText(s))
    ensures var r := SanitizeText(s); r == [] || (!IsSpace(r[0]) && !IsSpace(r[|r| - 1]))
  {
    var a := StripAngles(s);
    var x := RemoveScheme(a);
    var r := Trim(x);
    RemoveSchemeShrinks(a);
    TrimShrinks(x);
    TrimSpec(x);
    forall k | 0 <= k < |r| ensures r[k] != '<' && r[k] != '>' {
      assert r[k] in multiset(r);
      assert r[k] in a;
    }
  }

  /**
    A value that is already clean (no angle brackets, no match of the scheme anywhere, no
    white space at either end) is left as it is.
   */
  lemma SanitizeTextFixedPoint(s: string)
    requires NoAngles(s)
    requires forall i: nat | i < |s| :: !SchemeAt(s, i)
    requires s == [] || (!IsSpace(s[0]) && !IsSpace(s[|s| - 1]))
    ensures SanitizeText(s) == s
  {
    StripAnglesIdentity(s);
    RemoveSchemeIdentity(s);
    TrimOfTrimmed(s);
  }

  /** Appending text without brackets appends it unchanged. */
  lemma StripAnglesAppendClean(p: string, t: string)
    requires NoAngles(t)
    ensures StripAngles(p + t) == StripAngles(p) + t
  {
    StripAnglesAppend(p, t);
    StripAnglesIdentity(t);
  }

  /** Appending a bracket appends nothing. */
  lemma StripAnglesAppendBracket(p: string, c: char)
    requires c == '<' || c == '>'
    ensures StripAngles(p + [c]) == StripAngles(p)
  {
    StripAnglesAppend(p, [c]);
    assert StripAngles([c]) == [];
  }

  lemma SchemeHasNoAngles()
    ensures NoAngles(Scheme)
  {
  }

  /** Bracket removal on a value shaped `w1<a>javascript:b<c>w2`. */
  lemma StripAnglesTagged(w1: string, a: string, b: string, c: string, w2: string)
    requires NoAngles(w1) && NoAngles(w2) && NoAngles(a) && NoAngles(b) && NoAngles(c)
    ensures StripAngles(w1 + "<" + a + ">" + Scheme + b + "<" + c + ">" + w2) == w1 + a + Scheme + b + c + w2
  {
    SchemeHasNoAngles();
    var p1 := w1 + "<";
    var p2 := p1 + a;
    var p3 := p2 + ">";
    var p4 := p3 + Scheme;
    var p5 := p4 + b;
    var p6 := p5 + "<";
    var p7 := p6 + c;
    var p8 := p7 + ">";
    assert StripAngles(p1) == w1 by { StripAnglesAppendBracket(w1, '<'); StripAnglesIdentity(w1); }
    assert StripAngles(p2) == w1 + a by { StripAnglesAppendClean(p1, a); }
    assert StripAngles(p3) == w1 + a by { StripAnglesAppendBracket(p2, '>'); }
    assert StripAngles(p4) == w1 + a + Scheme by { StripAnglesAppendClean(p3, Scheme); }
    assert StripAngles(p5) == w1 + a + Scheme + b by { StripAnglesAppendClean(p4, b); }
    assert StripAngles(p6) == w1 + a + Scheme + b by { StripAnglesAppendBracket(p5, '<'); }
    assert StripAngles(p7) == w1 + a + Scheme + b + c by { StripAnglesAppendClean(p6, c); }
    assert StripAngles(p8) == w1 + a + Scheme + b + c by { StripAnglesAppendBracket(p7, '>'); }
    StripAnglesAppendClean(p8, w2);
  }

  /** One match of the scheme between two stretches with no `j` is removed and nothing else is. */
  lemma RemoveSchemeOnce(p: string, rest: string)
    requires NoJ(p) && NoJ(rest)
    ensures RemoveScheme(p + Scheme + rest) == p + rest
  {
    assert p + Scheme + rest == p + (Scheme + rest);
    RemoveSchemeSkipsNoJ(p, Scheme + rest);
    assert SchemeAt(Scheme + rest, 0);
    assert (Scheme + rest)[|Scheme|..] == rest;
    RemoveSchemeSkipsNoJ(rest, []);
    assert rest + [] == rest;
  }

  /** Regrouping of the pieces left after the scheme is removed from a tagged value. */
  lemma RegroupTagged(w1: string, a: string, b: string, c: string, w2: string)
    ensures w1 + a + Scheme + b + c + w2 == (w1 + a) + Scheme + (b + c + w2)
    ensures (w1 + a) + (b + c + w2) == w1 + (a + b + c) + w2
  {
  }

  /**
    A padded value shaped `<a>javascript:b<c>` (with no `j` and no brackets in `a`, `b`, `c`)
    sanitizes to `a + b + c`: the tags lose their brackets, the scheme goes, the padding goes.
   */
  lemma SanitizeTagged(w1: string, a: string, b: string, c: string, w2: string)
    requires AllSpace(w1) && AllSpace(w2)
    requires NoAngles(a) && NoAngles(b) && NoAngles(c) && NoJ(a) && NoJ(b) && NoJ(c)
    requires a != [] && !IsSpace(a[0]) && c != [] && !IsSpace(c[|c| - 1])
    ensures SanitizeText(w1 + "<" + a + ">" + Scheme + b + "<" + c + ">" + w2) == a + b + c
  {
    StripAnglesTagged(w1, a, b, c, w2);
    RegroupTagged(w1, a, b, c, w2);
    RemoveSchemeOnce(w1 + a, b + c + w2);
    TrimOfPadded(w1, a + b + c, w2);
  }

  lemma ExampleSpelling()
    ensures "  " + "<" + "script" + ">" + Scheme + "alert(1)" + "<" + "/script" + ">" + "  "
         == "  <script>javascript:alert(1)</script>  "
  {
    assert "  " + "<" + "script" + ">" == "  <script>";
    assert "  <script>" + Scheme + "alert(1)" == "  <script>javascript:alert(1)";
  }

  lemma ExampleResultSpelling()
    ensures "script" + "alert(1)" + "/script" == "scriptalert(1)/script"
  {
  }

  lemma ExamplePieces()
    ensures AllSpace("  ")
    ensures NoAngles("script") && NoAngles("alert(1)") && NoAngles("/script")
    ensures NoJ("script") && NoJ("alert(1)") && NoJ("/script")
    ensures !IsSpace("script"[0]) && !IsSpace("/script"[6])
  {
  }

  /** The worked example: brackets gone, the scheme gone, the padding gone. */
  lemma SanitizeExample()
    ensures SanitizeText("  <script>javascript:alert(1)</script>  ") == "scriptalert(1)/script"
  {
    ExampleSpelling();
    ExampleResultSpelling();
    ExamplePieces();
    SanitizeTagged("  ", "script", "alert(1)", "/script", "  ");
  }

  /**
    One pass does not make the value clean: the text that closes up around a removed match
    can spell the scheme again, so sanitizing twice differs from sanitizing once.
   */
  lemma SanitizeNotIdempotent()
    ensures SanitizeText("javajavascript:script:") == "javascript:"
    ensures SanitizeText("javascript:") == ""
  {
    SanitizeTwiceExample();
    SanitizeSchemeAlone();
  }

  /** Where no match starts, the first character is copied and the scan moves on by one. */
  lemma RemoveSchemeStep(s: string)
    requires s != [] && !SchemeAt(s, 0)
    ensures RemoveScheme(s) == [s[0]] + RemoveScheme(s[1..])
  {
  }

  /** Two halves of the scheme around the scheme hold no brackets. */
  lemma SplicedNoAngles(p: string, q: string)
    requires p + q == Scheme
    ensures NoAngles(p + Scheme + q)
  {
    SchemeHasNoAngles();
    var s := p + Scheme + q;
    forall k | 0 <= k < |s| ensures s[k] != '<' && s[k] != '>' {
      if k < |p| { assert s[k] == (p + q)[k]; }
      else if k >= |p| + |Scheme| { assert s[k] == (p + q)[k - |Scheme|]; }
    }
  }

  /** The pass removes the inner match and the halves close up into the scheme. */
  lemma SplicedRemove(p: string, q: string)
    requires p != [] && p + q == Scheme && NoJ(p[1..]) && NoJ(q)
    requires !SchemeAt(p + Scheme + q, 0)
    ensures RemoveScheme(p + Scheme + q) == Scheme
  {
    RemoveSchemeStep(p + Scheme + q);
    SpliceShift(p, Scheme, q);
    RemoveSchemeOnce(p[1..], q);
  }

  /** Dropping the head of `p + m + q` drops the head of `p`. */
  lemma SpliceShift(p: string, m: string, q: string)
    requires p != []
    ensures (p + m + q)[0] == p[0]
    ensures (p + m + q)[1..] == p[1..] + m + q
    ensures [p[0]] + (p[1..] + q) == p + q
  {
  }

  lemma TrimScheme()
    ensures Trim(Scheme) == Scheme
  {
    TrimOfPadded([], Scheme, []);
    assert [] + Scheme + [] == Scheme;
  }

  /**
    A match of the scheme wrapped in the two halves of another one: the pass removes the
    inner match and the halves close up into the scheme.
   */
  lemma SanitizeSpliced(p: string, q: string)
    requires p != [] && p + q == Scheme && NoJ(p[1..]) && NoJ(q)
    requires !SchemeAt(p + Scheme + q, 0)
    ensures SanitizeText(p + Scheme + q) == Scheme
  {
    SplicedNoAngles(p, q);
    StripAnglesIdentity(p + Scheme + q);
    SplicedRemove(p, q);
    TrimScheme();
  }

  lemma TwiceSpelling()
    ensures "java" + Scheme + "script:" == "javajavascript:script:"
    ensures "java" + "script:" == Scheme
  {
  }

  lemma TwicePieces()
    ensures NoJ("java"[1..]) && NoJ("script:")
    ensures !SchemeAt("java" + Scheme + "script:", 0)
  {
    assert "java"[1..] == "ava";
    var s := "java" + Scheme + "script:";
    assert s[4] == 'j';
    assert AsciiLower(s[4]) != Scheme[4];
  }

  lemma SanitizeTwiceExample()
    ensures SanitizeText("javajavascript:script:") == "javascript:"
  {
    TwiceSpelling();
    TwicePieces();
    SanitizeSpliced("java", "script:");
  }

  lemma StripAnglesScheme()
    ensures StripAngles(Scheme) == Scheme
  {
    SchemeHasNoAngles();
    StripAnglesIdentity(Scheme);
  }

  lemma RemoveSchemeAlone()
    ensures RemoveScheme(Scheme) == []
  {
    RemoveSchemeOnce([], []);
    assert [] + Scheme + [] == Scheme;
  }

  lemma SanitizeSchemeAlone()
    ensures SanitizeText("javascript:") == ""
  {
    StripAnglesScheme();
    RemoveSchemeAlone();
    assert Trim([]) == [];
  }
}
