/** The upload middleware's own logic (src/middleware/upload.ts): the file filter that admits
    image files by an unanchored pattern test on the extension and the MIME type, and the
    name a stored file is given. The extension (`path.extname`), the clock (`Date.now()`)
    and the UUID generator are inputs of the model. */
module Upload {
  import opened Wrappers
  import opened JsText

  const UnsupportedMessage := "File type not supported"

  /** What the filter hands multer's callback: accept the file, or an error. */
  datatype FilterVerdict = Accepted | Rejected(message: string)

  /** `/jpeg|jpg|png|img|svg/.test(s)`: without anchors, the pattern matches exactly when
      one of the five alternatives occurs somewhere in `s`. */
  predicate MatchesFileTypes(s: string) {
    Contains(s, "jpeg") || Contains(s, "jpg") || Contains(s, "png") || Contains(s, "img") || Contains(s, "svg")
  }

  /** `fileFilter`: the extension is lower-cased before the test, the MIME type is not;
      both must match. */
  function FileFilter(extension: string, mimeType: string): (r: FilterVerdict)
    ensures r == Accepted <==> MatchesFileTypes(LowerAscii(extension)) && MatchesFileTypes(mimeType)
    ensures r != Accepted ==> r == Rejected(UnsupportedMessage)
  {
    var extOk := MatchesFileTypes(LowerAscii(extension));
    var mimeOk := MatchesFileTypes(mimeType);
    if extOk && mimeOk then Accepted else Rejected(UnsupportedMessage)
  }

  /** A string lacking one of the characters of `pat` does not contain `pat`. */
  lemma MissingCharNotContained(s: string, pat: string, k: nat)
    requires k < |pat| && pat[k] !in s
    ensures !Contains(s, pat)
  {
    forall j | 0 <= j ensures !OccursAt(s, pat, j) {
      if j + |pat| <= |s| {
        assert s[j..j + |pat|][k] == s[j + k];
      }
    }
  }

  /** "image/PNG" holds an 'i', an 'm' and a 'g', but not "img". */
  lemma ImgNotInUpperCasePngMimeType()
    ensures !Contains("image/PNG", "img")
  {
    var mime := "image/PNG";
    forall j | 0 <= j ensures !OccursAt(mime, "img", j) {
      if j == 0 {
        assert mime[0..3][2] == 'a';
      } else if j + 3 <= |mime| {
        assert mime[j..j + 3][0] == mime[j];
      }
    }
  }

  /** The test is containment, not a match of the whole string: anything around one of
      the five patterns is allowed. */
  lemma UnanchoredMatch(before: string, pat: string, after: string)
    requires pat in ["jpeg", "jpg", "png", "img", "svg"]
    ensures MatchesFileTypes(before + pat + after)
  {
    ContainsInfix(before, pat, after);
  }

  /** An SVG upload passes: its MIME type "image/svg+xml" contains "svg". */
  lemma SvgAccepted()
    ensures FileFilter(".svg", "image/svg+xml") == Accepted
  {
    assert "image/svg+xml" == "image/" + "svg" + "+xml";
    UnanchoredMatch("image/", "svg", "+xml");
    assert LowerAscii(".svg") == "." + "svg" + "";
    UnanchoredMatch(".", "svg", "");
  }

  /** An upper-case extension passes, because it is lower-cased first. */
  lemma UpperCaseExtensionAccepted()
    ensures FileFilter(".PNG", "image/png") == Accepted
  {
    assert LowerAscii(".PNG") == "." + "png" + "";
    UnanchoredMatch(".", "png", "");
    assert "image/png" == "image/" + "png" + "";
    UnanchoredMatch("image/", "png", "");
  }

  /** None of the five patterns occurs in "image/PNG". */
  lemma UpperCasePngMimeTypeNoMatch(mime: string)
    requires mime == "image/PNG"
    ensures !MatchesFileTypes(mime)
  {
    MissingCharNotContained(mime, "jpeg", 0);
    MissingCharNotContained(mime, "jpg", 0);
    MissingCharNotContained(mime, "png", 1);
    MissingCharNotContained(mime, "svg", 0);
    ImgNotInUpperCasePngMimeType();
  }

  /** An upper-case MIME type fails, because it is not lower-cased. */
  lemma UpperCaseMimeTypeRejected()
    ensures FileFilter(".png", "image/PNG") == Rejected(UnsupportedMessage)
  {
    UpperCasePngMimeTypeNoMatch("image/PNG");
  }

  /** A document is not an image: ".pdf" contains none of the patterns. */
  lemma PdfRejected(mimeType: string)
    ensures FileFilter(".pdf", mimeType) == Rejected(UnsupportedMessage)
  {
    var ext := LowerAscii(".pdf");
    assert ext == ".pdf";
    MissingCharNotContained(ext, "jpeg", 0);
    MissingCharNotContained(ext, "jpg", 0);
    MissingCharNotContained(ext, "png", 1);
    MissingCharNotContained(ext, "img", 0);
    MissingCharNotContained(ext, "svg", 0);
    assert !MatchesFileTypes(ext);
  }

  predicate IsDigit(c: char) { '0' <= c <= '9' }

  /** A natural number written in decimal, as JavaScript turns `Date.now()` into a string. */
  function DecimalString(n: nat): (r: string)
    ensures |r| >= 1
    ensures forall i :: 0 <= i < |r| ==> IsDigit(r[i])
  {
    if n < 10 then [('0' as int + n) as char]
    else DecimalString(n / 10) + [('0' as int + n % 10) as char]
  }

  /** The number a string of decimal digits denotes. */
  function DecimalValue(s: string): (n: nat)
    requires forall i :: 0 <= i < |s| ==> IsDigit(s[i])
  {
    if s == [] then 0
    else
      var digit := s[|s| - 1] as int - '0' as int;
      assert IsDigit(s[|s| - 1]);
      10 * DecimalValue(s[..|s| - 1]) + digit
  }

  /** Reading the decimal string back gives the number. */
  lemma {:induction false} DecimalRoundTrip(n: nat)
    ensures DecimalValue(DecimalString(n)) == n
  {
    if n >= 10 {
      var d := DecimalString(n);
      assert d[..|d| - 1] == DecimalString(n / 10);
      DecimalRoundTrip(n / 10);
    }
  }

  /** The `filename` callback: `<timestamp>-<uuid>-<original name>`. */
  function StoredFilename(now: nat, uuid: string, originalName: string): (name: string)
    ensures |name| == |DecimalString(now)| + 1 + |uuid| + 1 + |originalName|
    ensures name[|name| - |originalName|..] == originalName
    ensures var d := |DecimalString(now)|;
      && name[..d] == DecimalString(now) && name[d] == '-'
      && name[d + 1..d + 1 + |uuid|] == uuid && name[d + 1 + |uuid|] == '-'
  {
    DecimalString(now) + "-" + uuid + "-" + originalName
  }

  /** In digits followed by a "-", the first "-" is the one after the digits. */
  lemma FirstDashAfterDigits(digits: string, rest: string)
    requires forall i :: 0 <= i < |digits| ==> IsDigit(digits[i])
    ensures IndexOf(digits + "-" + rest, "-") == Some(|digits|)
  {
    var s := digits + "-" + rest;
    assert OccursAt(s, "-", |digits|) by {
      assert s[|digits|..|digits| + 1] == "-";
    }
    forall j | 0 <= j < |digits| ensures !OccursAt(s, "-", j) {
      assert s[j..j + 1][0] == digits[j];
    }
  }

  /** The stored name starts with the timestamp: the text before its first "-" is the
      clock reading, in decimal. */
  lemma StoredFilenameTimestamp(now: nat, uuid: string, originalName: string)
    ensures var name := StoredFilename(now, uuid, originalName);
      var stamp := DecimalString(now);
      && IndexOf(name, "-") == Some(|stamp|)
      && name[..|stamp|] == stamp
      && DecimalValue(name[..|stamp|]) == now
  {
    var stamp := DecimalString(now);
    var rest := uuid + "-" + originalName;
    var name := StoredFilename(now, uuid, originalName);
    assert name == stamp + "-" + rest;
    FirstDashAfterDigits(stamp, rest);
    assert name[..|stamp|] == stamp;
    DecimalRoundTrip(now);
  }
}
