/**
 * The VIN pattern matcher of the scanner component: a leftmost search for
 * the regular expression `\bNA[A-Z0-9]{15}\b` (no flags).
 */
module VinMatcher {
  import opened Wrappers

  const VinLength := 17

  /** The characters `\w` matches without the `u` flag; `\b` is defined by them. */
  predicate IsWordChar(c: char) {
    ('A' <= c <= 'Z') || ('a' <= c <= 'z') || ('0' <= c <= '9') || c == '_'
  }

  /** `[A-Z0-9]`: upper-case ASCII letters (I, O and Q included) and digits. */
  predicate IsVinChar(c: char) {
    ('A' <= c <= 'Z') || ('0' <= c <= '9')
  }

  /**
   * The pattern matches at index `i`: "NA", then 15 characters of
   * `[A-Z0-9]`, with a word boundary on both sides. Both ends of the window
   * are word characters, so each boundary holds exactly when the neighbour is
   * missing or is not a word character.
   */
  predicate VinAt(t: string, i: int) {
    && 0 <= i && i + VinLength <= |t|
    && t[i] == 'N' && t[i + 1] == 'A'
    && (forall k :: i + 2 <= k < i + VinLength ==> IsVinChar(t[k]))
    && (i == 0 || !IsWordChar(t[i - 1]))
    && (i + VinLength == |t| || !IsWordChar(t[i + VinLength]))
  }

  /** The scan the regular-expression engine makes: try each start index from `from` on. */
  function FirstVinFrom(t: string, from: nat): (r: Option<nat>)
    decreases |t| - from
    ensures r.Some? ==> from <= r.value && VinAt(t, r.value)
    ensures r.Some? ==> forall j :: from <= j < r.value ==> !VinAt(t, j)
    ensures r.None? ==> forall j :: from <= j ==> !VinAt(t, j)
  {
    if from + VinLength > |t| then None
    else if VinAt(t, from) then Some(from)
    else FirstVinFrom(t, from + 1)
  }

  /** `extractVin`: the first match, or `null` (here `None`). */
  function ExtractVin(text: string): (r: Option<string>)
    ensures r.None? <==> forall i :: !VinAt(text, i)
    ensures r.Some? ==> exists i :: VinAt(text, i) && r.value == text[i..i + VinLength]
                                    && forall j :: j < i ==> !VinAt(text, j)
  {
    match FirstVinFrom(text, 0)
    case None => None
    case Some(i) =>
      assert VinAt(text, i) && forall j :: j < i ==> !VinAt(text, j);
      Some(text[i..i + VinLength])
  }

  /**
   * What a returned VIN looks like: 17 characters, "NA" then 15 characters
   * of `[A-Z0-9]`, and a substring of the input.
   */
  lemma ExtractVinShape(text: string)
    requires ExtractVin(text).Some?
    ensures var v := ExtractVin(text).value;
      && |v| == VinLength && v[0] == 'N' && v[1] == 'A'
      && (forall k :: 2 <= k < VinLength ==> IsVinChar(v[k]))
  {
    var i := FirstVinFrom(text, 0).value;
    var v := text[i..i + VinLength];
    assert forall k :: 2 <= k < VinLength ==> v[k] == text[i + k];
  }

  /** A free-standing VIN is found, whatever non-word text surrounds it. */
  lemma {:induction false} FindsIsolatedVin(pre: string, vin: string, post: string)
    requires |vin| == VinLength && vin[0] == 'N' && vin[1] == 'A'
    requires forall k :: 2 <= k < VinLength ==> IsVinChar(vin[k])
    requires |pre| > 0 ==> !IsWordChar(pre[|pre| - 1])
    requires |post| > 0 ==> !IsWordChar(post[0])
    requires forall j :: !VinAt(pre, j)
    ensures ExtractVin(pre + vin + post) == Some(vin)
  {
    var t := pre + vin + post;
    var n := |pre|;
    assert t[n..n + VinLength] == vin;
    assert forall k :: 0 <= k < VinLength ==> t[n + k] == vin[k];
    assert VinAt(t, n);
    forall j | j < n ensures !VinAt(t, j) {
      if 0 <= j && j + VinLength < n {
        assert forall k :: 0 <= k <= j + VinLength ==> t[k] == pre[k];
        assert VinAt(t, j) ==> VinAt(pre, j);
      } else if 0 <= j {
        var c := t[n - 1];
        assert c == pre[n - 1];
        assert VinAt(t, j) ==> IsWordChar(c);
      }
    }
    var r := FirstVinFrom(t, 0);
    assert r.Some? && r.value == n;
  }

  // Concrete cases of the boundary rule.

  /** Spaces and punctuation are boundaries. */
  lemma MatchesBetweenPunctuation()
    ensures ExtractVin("VIN: NAAM1234567890ABC.") == Some("NAAM1234567890ABC")
  {
    assert "VIN: " + "NAAM1234567890ABC" + "." == "VIN: NAAM1234567890ABC.";
    FindsIsolatedVin("VIN: ", "NAAM1234567890ABC", ".");
  }

  /** The pattern admits I, O and Q. */
  lemma AdmitsIOQ()
    ensures ExtractVin("NAIOQ1234567890AB") == Some("NAIOQ1234567890AB")
  {
    assert "" + "NAIOQ1234567890AB" + "" == "NAIOQ1234567890AB";
    FindsIsolatedVin("", "NAIOQ1234567890AB", "");
  }

  /** A Persian letter is not a word character, so it does not block a match. */
  lemma PersianLetterIsBoundary()
    ensures ExtractVin("\U{0634}NAAM1234567890ABC") == Some("NAAM1234567890ABC")
  {
    assert "\U{0634}" + "NAAM1234567890ABC" + "" == "\U{0634}NAAM1234567890ABC";
    FindsIsolatedVin("\U{0634}", "NAAM1234567890ABC", "");
  }

  /** A lower-case letter before the window blocks the match. */
  lemma LowerCaseNeighbourBlocks()
    ensures ExtractVin("xNAAM1234567890ABC") == None
  {
    var t := "xNAAM1234567890ABC";
    forall i ensures !VinAt(t, i) {
      if i != 1 { } else { assert IsWordChar(t[0]); }
    }
  }

  /** An underscore after the window blocks the match. */
  lemma UnderscoreNeighbourBlocks()
    ensures ExtractVin("NAAM1234567890ABC_") == None
  {
    var t := "NAAM1234567890ABC_";
    forall i ensures !VinAt(t, i) {
      if i != 0 { } else { assert IsWordChar(t[17]); }
    }
  }

  /**
   * A text made only of more than 17 VIN characters holds no bounded
   * 17-character window: every window has a word character beside it.
   */
  lemma OverlongRunHasNoMatch(t: string)
    requires |t| > VinLength
    requires forall k :: 0 <= k < |t| ==> IsVinChar(t[k])
    ensures ExtractVin(t) == None
  {
    forall i ensures !VinAt(t, i) {
      if i == 0 {
        assert IsWordChar(t[VinLength]);
      } else if 0 < i < |t| {
        assert IsWordChar(t[i - 1]);
      }
    }
  }

  /** Eighteen VIN characters in a row: nothing is found. */
  lemma EighteenCharRunHasNoMatch()
    ensures ExtractVin("NAAM1234567890ABCD") == None
  {
    OverlongRunHasNoMatch("NAAM1234567890ABCD");
  }
}
