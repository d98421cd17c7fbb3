/** The upload limits of `Config` and its `validate_file` check. */
module Config {
  import opened Wrappers
  import opened Text
  import opened Strptime

  /** `MAX_FILE_SIZE_MB`, at its default. */
  const MaxFileSizeMB: nat := 10

  /** Bytes in a megabyte, as the configuration counts them. */
  const BytesPerMB: nat := 1024 * 1024

  /** `MAX_FILE_SIZE_BYTES`. */
  const MaxFileSizeBytes: nat := MaxFileSizeMB * BytesPerMB

  const PdfExtension := ".pdf"
  const InvalidTypeError := "Invalid file type. Allowed types: .pdf"
  const EmptyFileError := "File is empty"

  /** `n / d` rounded to the nearest integer, ties to the even one: how `:.2f` rounds an exact value. */
  function RoundHalfEven(n: nat, d: nat): (q: nat)
    requires d > 0
    ensures 2 * (q * d - n) <= d && 2 * (n - q * d) <= d
    ensures 2 * (q * d - n) == d || 2 * (n - q * d) == d ==> q % 2 == 0
  {
    var q0 := n / d;
    var r := n % d;
    assert n == q0 * d + r;
    MulSucc(q0, d);
    if 2 * r > d || (2 * r == d && q0 % 2 == 1) then q0 + 1 else q0
  }

  lemma MulSucc(q: nat, d: nat)
    ensures (q + 1) * d == q * d + d
  {
  }

  /** Euclidean division is the only way to write `n` as `q * d + r` with `0 <= r < d`. */
  lemma DivUnique(n: nat, d: nat, q: nat, rem: nat)
    requires 0 <= rem < d && n == q * d + rem
    ensures n / d == q && n % d == rem
  {
    var q', r' := n / d, n % d;
    assert n == q' * d + r';
    if q' < q {
      MulMonotone(q' + 1, q, d);
      MulSucc(q', d);
    } else if q < q' {
      MulMonotone(q + 1, q', d);
      MulSucc(q, d);
    }
  }

  lemma MulMonotone(a: nat, b: nat, d: nat)
    requires a <= b
    ensures a * d <= b * d
  {
  }

  /** `f"{size / (1024 * 1024):.2f}"` for a size the float division represents exactly. */
  function MegabytesText(size: nat): (r: string)
    ensures |r| >= 4 && r[|r| - 3] == '.'
  {
    var cents := RoundHalfEven(size * 100, BytesPerMB);
    NatToString(cents / 100) + "." + Pad2(cents % 100)
  }

  /** Read as a decimal, the megabytes text is the quotient rounded to the cent. */
  lemma MegabytesTextReadsBack(size: nat)
    ensures |MegabytesText(size)| >= 4
    ensures AllDigits(MegabytesText(size)[..|MegabytesText(size)| - 3])
    ensures AllDigits(MegabytesText(size)[|MegabytesText(size)| - 2..])
    ensures DigitsValue(MegabytesText(size)[..|MegabytesText(size)| - 3]) * 100
            + DigitsValue(MegabytesText(size)[|MegabytesText(size)| - 2..])
            == RoundHalfEven(size * 100, BytesPerMB)
  {
    var cents := RoundHalfEven(size * 100, BytesPerMB);
    var whole, frac := NatToString(cents / 100), Pad2(cents % 100);
    var t := MegabytesText(size);
    assert t == whole + "." + frac;
    assert t[..|t| - 3] == whole;
    assert t[|t| - 2..] == frac;
    NatToStringRoundTrip(cents / 100);
  }

  function TooLargeError(size: nat): string {
    "File too large (" + MegabytesText(size) + " MB). Maximum: " + NatToString(MaxFileSizeMB) + " MB"
  }

  /** A whole number of megabytes is shown with ".00". */
  lemma WholeMegabytes(k: nat)
    ensures MegabytesText(k * BytesPerMB) == NatToString(k) + ".00"
  {
    var n := k * BytesPerMB * 100;
    assert n == (100 * k) * BytesPerMB;
    DivUnique(n, BytesPerMB, 100 * k, 0);
    DivUnique(100 * k, 100, k, 0);
    assert RoundHalfEven(n, BytesPerMB) == 100 * k;
    assert Pad2(0) == "00";
  }

  /** `Config.validate_file`: `(True, None)`, or `False` with the first failing check's message. */
  function ValidateFile(filename: string, fileSize: int): (r: (bool, Option<string>))
    ensures r.0 <==> r.1 == None
  {
    if !EndsWith(Lower(filename), PdfExtension) then (false, Some(InvalidTypeError))
    else if fileSize > MaxFileSizeBytes then (false, Some(TooLargeError(fileSize)))
    else if fileSize == 0 then (false, Some(EmptyFileError))
    else (true, None)
  }

  /** The three checks, in the order they are made. */
  function FileChecks(filename: string, fileSize: int): seq<Outcome<string>> {
    [if EndsWith(Lower(filename), PdfExtension) then Pass else Fail(InvalidTypeError),
     if fileSize <= MaxFileSizeBytes then Pass else Fail(TooLargeError(fileSize)),
     if fileSize != 0 then Pass else Fail(EmptyFileError)]
  }

  /** The first failing outcome of `checks`, if any. */
  function FirstFailure(checks: seq<Outcome<string>>): (r: Option<string>)
    ensures r.None? <==> forall i :: 0 <= i < |checks| ==> checks[i].Pass?
    ensures r.Some? ==> exists i :: 0 <= i < |checks| && checks[i] == Fail(r.value)
                                    && forall j :: 0 <= j < i ==> checks[j].Pass?
    decreases |checks|
  {
    if checks == [] then None
    else if checks[0].Fail? then Some(checks[0].error)
    else
      var rest := FirstFailure(checks[1..]);
      if rest.Some? then
        var i :| 0 <= i < |checks[1..]| && checks[1..][i] == Fail(rest.value)
                 && forall j :: 0 <= j < i ==> checks[1..][j].Pass?;
        assert checks[i + 1] == Fail(rest.value);
        assert forall j :: 0 <= j < i + 1 ==> checks[j].Pass? by {
          forall j | 0 <= j < i + 1
            ensures checks[j].Pass?
          {
            if j > 0 { assert checks[j] == checks[1..][j - 1]; }
          }
        }
        rest
      else
        assert forall i :: 0 < i < |checks| ==> checks[i] == checks[1..][i - 1];
        rest
  }

  /**
   * A file passes exactly when its name ends in ".pdf" in any case, it is not over the limit
   * and it is not empty; otherwise the message is that of the first check it fails, in the
   * order type, size, emptiness.
   */
  lemma ValidateFileIsFirstFailure(filename: string, fileSize: int)
    ensures ValidateFile(filename, fileSize).1 == FirstFailure(FileChecks(filename, fileSize))
    ensures ValidateFile(filename, fileSize).0 <==>
              EndsWith(Lower(filename), PdfExtension) && fileSize != 0 && fileSize <= MaxFileSizeBytes
  {
    var c := FileChecks(filename, fileSize);
    assert c[1..][1..][1..] == [];
    if c[0].Pass? {
      assert c[1..][0] == c[1];
      if c[1].Pass? {
        assert c[1..][1..][0] == c[2];
      }
    }
  }

  /** Only the extension's letters are folded: ".PDF", ".Pdf" and ".pdf" are judged alike. */
  lemma ExtensionCaseIgnored(stem: string, ext: string, fileSize: int)
    requires Lower(ext) == PdfExtension
    ensures ValidateFile(stem + ext, fileSize) == ValidateFile(stem + PdfExtension, fileSize)
    ensures EndsWith(Lower(stem + ext), PdfExtension)
  {
    var s := stem + ext;
    var l := Lower(s);
    assert |ext| == 4;
    assert l[|l| - 4..] == PdfExtension by {
      forall i | 0 <= i < 4
        ensures l[|l| - 4 + i] == PdfExtension[i]
      {
        assert s[|stem| + i] == ext[i];
        assert Lower(ext)[i] == LowerChar(ext[i]);
      }
    }
    var t := stem + PdfExtension;
    var lt := Lower(t);
    assert lt[|lt| - 4..] == PdfExtension by {
      forall i | 0 <= i < 4
        ensures lt[|lt| - 4 + i] == PdfExtension[i]
      {
        assert t[|stem| + i] == PdfExtension[i];
      }
    }
  }

  /** A negative size is not rejected: only sizes over the limit and the size 0 are. */
  lemma NegativeSizePasses(filename: string, fileSize: int)
    requires EndsWith(Lower(filename), PdfExtension) && fileSize < 0
    ensures ValidateFile(filename, fileSize) == (true, None)
  {
  }
}
