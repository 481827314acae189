/**
 * `_sanitize_filename`: turns a video title into a file name. Each character that
 * Windows, Linux or macOS refuse becomes '_', spaces and dots are stripped from both
 * ends, the result is cut to 200 characters, and an empty result becomes "untitled".
 */
module Sanitize {

  const MaxLength: nat := 200
  const Fallback: string := "untitled"

  /** The characters of the pattern `[<>:"/\\|?*\x00-\x1f]`. */
  predicate IsIllegal(c: char)
  {
    c == '<' || c == '>' || c == ':' || c == '"' || c == '/' || c == '\\' ||
    c == '|' || c == '?' || c == '*' || c < ' '
  }

  /** The characters `str.strip(' .')` removes. */
  predicate IsStripped(c: char)
  {
    c == ' ' || c == '.'
  }

  predicate AllLegal(s: string)
  {
    forall i :: 0 <= i < |s| ==> !IsIllegal(s[i])
  }

  /** `re.sub(pattern, '_', s)`: every illegal character is replaced by '_' where it stands. */
  function ReplaceIllegal(s: string): (r: string)
    ensures |r| == |s| && AllLegal(r)
    ensures forall i :: 0 <= i < |s| && !IsIllegal(s[i]) ==> r[i] == s[i]
    ensures forall i :: 0 <= i < |s| && IsIllegal(s[i]) ==> r[i] == '_'
  {
    seq(|s|, i requires 0 <= i < |s| => if IsIllegal(s[i]) then '_' else s[i])
  }

  /** `str.lstrip(' .')`: what is left after dropping the leading spaces and dots. */
  function LStrip(s: string): (r: string)
    ensures |r| <= |s| && r == s[|s| - |r|..]
    ensures r == [] || !IsStripped(r[0])
    ensures forall i :: 0 <= i < |s| - |r| ==> IsStripped(s[i])
    decreases |s|
  {
    if s != [] && IsStripped(s[0]) then LStrip(s[1..]) else s
  }

  /** `str.rstrip(' .')`: what is left after dropping the trailing spaces and dots. */
  function RStrip(s: string): (r: string)
    ensures |r| <= |s| && r == s[..|r|]
    ensures r == [] || !IsStripped(r[|r| - 1])
    ensures forall i :: |r| <= i < |s| ==> IsStripped(s[i])
    decreases |s|
  {
    if s != [] && IsStripped(s[|s| - 1]) then RStrip(s[..|s| - 1]) else s
  }

  /** `str.strip(' .')`. */
  function Strip(s: string): string
  {
    RStrip(LStrip(s))
  }

  /** The name `_sanitize_filename` produces for `filename`. */
  function SanitizeFilename(filename: string): (r: string)
    ensures r != []
    ensures |r| <= MaxLength
    ensures AllLegal(r)
  {
    var stripped := Strip(ReplaceIllegal(filename));
    var cut := if |stripped| > MaxLength then stripped[..MaxLength] else stripped;
    if cut != [] then cut else Fallback
  }

  /**
   * Nothing is left after stripping exactly when the title is made only of spaces
   * and dots: an illegal character has become '_' by then, and '_' is never stripped.
   */
  lemma {:induction false} StrippedEmptyIff(filename: string)
    ensures Strip(ReplaceIllegal(filename)) == [] <==> AllPadding(filename)
  {
    EmptyStripIffPadding(ReplaceIllegal(filename));
    ReplacedPaddingIff(filename);
  }

  /** `strip(' .')` leaves nothing exactly when the text is made only of spaces and dots. */
  lemma {:induction false} EmptyStripIffPadding(m: string)
    ensures Strip(m) == [] <==> AllPadding(m)
  {
    if Strip(m) == [] {
      assert LStrip(m) == [];
    }
  }

  /** Spaces and dots are legal, and '_' is neither, so replacing keeps the padding as it is. */
  lemma {:induction false} ReplacedPaddingIff(filename: string)
    ensures AllPadding(ReplaceIllegal(filename)) <==> AllPadding(filename)
  {
    var m := ReplaceIllegal(filename);
    if AllPadding(m) {
      forall i | 0 <= i < |filename|
        ensures IsStripped(filename[i])
      {
        assert IsStripped(m[i]);
      }
    }
  }

  /** A title made only of spaces and dots (the empty title included) becomes "untitled". */
  lemma OnlySpacesAndDotsFallBack(filename: string)
    requires forall i :: 0 <= i < |filename| ==> IsStripped(filename[i])
    ensures SanitizeFilename(filename) == Fallback
  {
    StrippedEmptyIff(filename);
  }

  /**
   * Illegal characters are replaced, never dropped: when the title does not start with
   * a space or a dot, the result is a prefix of the title with every illegal character
   * turned into '_' in place, and it keeps min(|title|, 200) characters when the title
   * does not end with a space or a dot either.
   */
  lemma {:induction false} SanitizeReplacesInPlace(filename: string)
    requires filename != [] && !IsStripped(filename[0])
    ensures var r := SanitizeFilename(filename);
      |r| <= |filename| &&
      (forall i :: 0 <= i < |r| ==> r[i] == (if IsIllegal(filename[i]) then '_' else filename[i])) &&
      (!IsStripped(filename[|filename| - 1]) ==> |r| == if |filename| > MaxLength then MaxLength else |filename|)
  {
    var m := ReplaceIllegal(filename);
    assert !IsStripped(m[0]);
    assert LStrip(m) == m;
    var s := RStrip(m);
    if !IsStripped(filename[|filename| - 1]) {
      assert !IsStripped(m[|m| - 1]);
      assert s == m;
    }
  }

  /** Text made only of spaces and dots. */
  predicate AllPadding(p: string)
  {
    forall i :: 0 <= i < |p| ==> IsStripped(p[i])
  }

  /**
   * Leading spaces and dots do not change the name: together with
   * `SanitizeReplacesInPlace` this covers every title, whatever it starts with.
   */
  lemma {:induction false} LeadingPaddingIgnored(p: string, t: string)
    requires AllPadding(p)
    ensures SanitizeFilename(p + t) == SanitizeFilename(t)
  {
    ReplaceIllegalConcat(p, t);
    PaddingIsLegal(p);
    LStripSkipsPadding(p, ReplaceIllegal(t));
    assert LStrip(ReplaceIllegal(p + t)) == LStrip(ReplaceIllegal(t));
    SameStripSameName(p + t, t);
  }

  /** Spaces and dots are legal, so `re.sub` leaves them as they are. */
  lemma PaddingIsLegal(p: string)
    requires AllPadding(p)
    ensures ReplaceIllegal(p) == p
  {
  }

  /** The name depends on the title only through its replaced and stripped text. */
  lemma SameStripSameName(a: string, b: string)
    requires Strip(ReplaceIllegal(a)) == Strip(ReplaceIllegal(b))
    ensures SanitizeFilename(a) == SanitizeFilename(b)
  {
  }

  /** `re.sub` works character by character, so it distributes over concatenation. */
  lemma ReplaceIllegalConcat(a: string, b: string)
    ensures ReplaceIllegal(a + b) == ReplaceIllegal(a) + ReplaceIllegal(b)
  {
    var l := ReplaceIllegal(a + b);
    var r := ReplaceIllegal(a) + ReplaceIllegal(b);
    forall i | 0 <= i < |l|
      ensures l[i] == r[i]
    {
      if i < |a| {
        assert (a + b)[i] == a[i];
      } else {
        assert (a + b)[i] == b[i - |a|];
      }
    }
  }

  /** `lstrip` removes a leading run of spaces and dots completely. */
  lemma {:induction false} LStripSkipsPadding(p: string, x: string)
    requires AllPadding(p)
    ensures LStrip(p + x) == LStrip(x)
    decreases |p|
  {
    if p != [] {
      assert (p + x)[1..] == p[1..] + x;
      LStripSkipsPadding(p[1..], x);
    } else {
      assert p + x == x;
    }
  }

  /** A title made only of illegal characters becomes underscores, not "untitled". */
  lemma AllIllegalBecomesUnderscores(filename: string)
    requires filename != []
    requires forall i :: 0 <= i < |filename| ==> IsIllegal(filename[i])
    ensures var n := if |filename| > MaxLength then MaxLength else |filename|;
      SanitizeFilename(filename) == seq(n, _ => '_')
  {
    var n := if |filename| > MaxLength then MaxLength else |filename|;
    var r := SanitizeFilename(filename);
    assert !IsStripped(filename[0]) && !IsStripped(filename[|filename| - 1]);
    SanitizeReplacesInPlace(filename);
    assert |r| == n;
    forall i | 0 <= i < n
      ensures r[i] == seq(n, _ => '_')[i]
    {
      assert IsIllegal(filename[i]);
    }
  }

  /** A name that is already clean, short enough and not padded is kept as it is. */
  lemma {:induction false} CleanNameUnchanged(name: string)
    requires name != [] && |name| <= MaxLength && AllLegal(name)
    requires !IsStripped(name[0]) && !IsStripped(name[|name| - 1])
    ensures SanitizeFilename(name) == name
  {
    assert ReplaceIllegal(name) == name;
    assert LStrip(name) == name;
    assert RStrip(name) == name;
  }

  /** After stripping, the text neither starts nor ends with a space or a dot. */
  lemma {:induction false} StripLeavesNoPadding(m: string)
    ensures var s := Strip(m); s == [] || (!IsStripped(s[0]) && !IsStripped(s[|s| - 1]))
  {
    var l := LStrip(m);
    var s := RStrip(l);
    if s != [] {
      assert s[0] == l[0];
    }
  }

  /** Text that ends in a space or a dot loses at least that character to the strip. */
  lemma {:induction false} StripShrinksEndPadded(m: string)
    requires m != [] && IsStripped(m[|m| - 1])
    ensures |Strip(m)| < |m|
  {
    var l := LStrip(m);
    if l != [] {
      assert l[|l| - 1] == m[|m| - 1];
      assert RStrip(l) == RStrip(l[..|l| - 1]);
    }
  }

  /** "untitled" is a clean name. */
  lemma FallbackUnchanged()
    ensures SanitizeFilename(Fallback) == Fallback
  {
    CleanNameUnchanged(Fallback);
  }

  /**
   * Sanitising twice changes nothing when stripping left at most 200 characters: the
   * result is then legal, unpadded and short, or it is "untitled".
   */
  lemma {:induction false} SanitizeIdempotentWithinCap(filename: string)
    requires |Strip(ReplaceIllegal(filename))| <= MaxLength
    ensures SanitizeFilename(SanitizeFilename(filename)) == SanitizeFilename(filename)
  {
    var s := Strip(ReplaceIllegal(filename));
    ShortStripIsName(filename);
    if s == [] {
      FallbackUnchanged();
    } else {
      StripLeavesNoPadding(ReplaceIllegal(filename));
      CleanNameUnchanged(s);
    }
  }

  /** When stripping leaves at most 200 characters, the name is the stripped text, or "untitled". */
  lemma ShortStripIsName(filename: string)
    requires |Strip(ReplaceIllegal(filename))| <= MaxLength
    ensures var s := Strip(ReplaceIllegal(filename));
      SanitizeFilename(filename) == if s == [] then Fallback else s
  {
  }

  /** A name that ends in a space or a dot comes out of sanitising shorter, or as "untitled". */
  lemma {:induction false} EndPaddedNameShrinks(name: string)
    requires name != [] && IsStripped(name[|name| - 1])
    ensures |SanitizeFilename(name)| < |name| || SanitizeFilename(name) == Fallback
  {
    var m := ReplaceIllegal(name);
    assert m[|m| - 1] == name[|name| - 1];
    StripShrinksEndPadded(m);
  }

  /**
   * The cut to 200 characters comes after the strip, so it can leave a trailing space
   * or dot: a title longer than 200 characters, not padded, whose 200th character is a
   * space or a dot, keeps that character last. Sanitising such a name again strips it,
   * so sanitising is not idempotent beyond the cap.
   */
  lemma {:induction false} TruncationCanLeaveTrailingPadding(title: string)
    requires |title| > MaxLength
    requires !IsStripped(title[0]) && !IsStripped(title[|title| - 1])
    requires IsStripped(title[MaxLength - 1])
    ensures var r := SanitizeFilename(title);
      |r| == MaxLength && r[MaxLength - 1] == title[MaxLength - 1] &&
      SanitizeFilename(r) != r
  {
    var r := SanitizeFilename(title);
    SanitizeReplacesInPlace(title);
    assert |r| == MaxLength && IsStripped(r[MaxLength - 1]);
    EndPaddedNameShrinks(r);
  }
}
