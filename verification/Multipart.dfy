/** The upload body of bitsmanager/repository.go: a multipart message (section 5.1.1 of RFC 2046) whose
    length is announced before it is streamed.  Characters stand for bytes. */
module Multipart {
  const CRLF := "\r\n"

  function Decimal(n: nat): string {
    if n < 10 then [DIGITS[n]] else Decimal(n / 10) + [DIGITS[n % 10]]
  }

  const DIGITS := "0123456789"

  /** The boundaries SetBoundary accepts. */
  predicate Accepted(boundary: string) {
    && 1 <= |boundary| <= 70
    && boundary[|boundary| - 1] != ' '
    && forall c :: c in boundary ==>
         'a' <= c <= 'z' || 'A' <= c <= 'Z' || '0' <= c <= '9' || c in "'()+_,-./:=? "
  }

  /** mime/multipart.Writer */
  class Writer {
    var out: string
    var boundary: string
    var started: bool

    /** A writer starts with a boundary of its own, chosen at random. */
    constructor (random: string)
      ensures out == "" && boundary == random && !started
    {
      out, boundary, started := "", random, false;
    }

    method SetBoundary(b: string) returns (ok: bool)
      requires !started
      modifies this`boundary
      ensures ok <==> Accepted(b)
      ensures boundary == if ok then b else old(boundary)
    {
      ok := Accepted(b);
      if ok {
        boundary := b;
      }
    }

    method CreatePart(header: seq<(string, string)>)
      modifies this`out, this`started
      ensures started && out == old(out) + PartStart(boundary, !old(started), header)
    {
      var lines := "";
      for i := 0 to |header|
        invariant lines == HeaderLines(header[..i])
      {
        assert header[..i + 1][..i] == header[..i];
        lines := lines + header[i].0 + ": " + header[i].1 + CRLF;
      }
      assert header[..|header|] == header;
      out := out + ((if started then CRLF else "") + "--" + boundary + CRLF + lines + CRLF);
      started := true;
    }

    method Write(content: string)
      modifies this`out
      ensures out == old(out) + content
    {
      out := out + content;
    }

    method Close()
      modifies this`out
      ensures out == old(out) + Closing(boundary)
    {
      out := out + (CRLF + "--" + boundary + "--" + CRLF);
    }
  }

  function HeaderLines(header: seq<(string, string)>): string {
    if header == [] then ""
    else
      var last := header[|header| - 1];
      HeaderLines(header[..|header| - 1]) + last.0 + ": " + last.1 + CRLF
  }

  function PartStart(boundary: string, first: bool, header: seq<(string, string)>): string {
    (if first then "" else CRLF) + "--" + boundary + CRLF + HeaderLines(header) + CRLF
  }

  function Closing(boundary: string): string { CRLF + "--" + boundary + "--" + CRLF }

  const RESOURCES_HEADER := [("Content-Disposition", "form-data; name=\"resources\"")]

  function ZipHeader(fileSize: nat): seq<(string, string)> {
    [("Content-Disposition", "form-data; name=\"application\"; filename=\"application.zip\""),
     ("Content-Length", Decimal(fileSize)),
     ("Content-Transfer-Encoding", "binary"),
     ("Content-Type", "application/zip")]
  }

  /** The message: a part holding the empty list of known resources, and a part holding the zip. */
  function Body(boundary: string, fileSize: nat, content: string): string {
    PartStart(boundary, true, RESOURCES_HEADER) + "[]"
    + PartStart(boundary, false, ZipHeader(fileSize)) + content + Closing(boundary)
  }

  /** The part with the empty list, and the start of the part for the zip. */
  method OpenParts(w: Writer, resources: seq<(string, string)>, zip: seq<(string, string)>)
    requires !w.started && w.out == ""
    modifies w`out, w`started
    ensures w.out == PartStart(w.boundary, true, resources) + "[]" + PartStart(w.boundary, false, zip)
  {
    w.CreatePart(resources);
    assert w.out == PartStart(w.boundary, true, resources);
    w.Write("[]");
    w.CreatePart(zip);
  }

  /** The body UploadBits streams, with the boundary the writer chose. */
  method UploadBody(random: string, fileSize: nat, content: string) returns (body: string, boundary: string)
    ensures boundary == random && body == Body(random, fileSize, content)
    ensures IsMessage(body, random, Decimal(fileSize), content) && DecimalOf(fileSize, Decimal(fileSize))
  {
    var w := new Writer(random);
    OpenParts(w, RESOURCES_HEADER, ZipHeader(fileSize));
    w.Write(content);
    w.Close();
    BodyIsMessage(random, fileSize, content);
    DecimalReads(fileSize);
    return w.out, w.boundary;
  }

  /** predictPart: the length of the message without the zip, plus the size of the zip.  The error of
      SetBoundary is ignored. */
  method PredictPart(random: string, fileSize: nat, boundary: string) returns (length: nat)
    ensures length == Predicted(if Accepted(boundary) then boundary else random, fileSize)
  {
    var w := new Writer(random);
    var _ := w.SetBoundary(boundary);
    OpenParts(w, RESOURCES_HEADER, ZipHeader(fileSize));
    w.Close();
    WithoutContent(w.boundary, fileSize);
    return |w.out| + fileSize;
  }

  lemma WithoutContent(boundary: string, fileSize: nat)
    ensures Body(boundary, fileSize, "") ==
            PartStart(boundary, true, RESOURCES_HEADER) + "[]" + PartStart(boundary, false,
                    ZipHeader(fileSize)) + Closing(boundary)
  {
  }

  function Predicted(boundary: string, fileSize: nat): nat { |Body(boundary, fileSize, "")| + fileSize }

  /** The announced length is the streamed length if and only if the content has the announced size and
      the prediction used a boundary as long as the real one, or the two errors cancel: each character
      of boundary counts three times. */
  lemma PredictedIsStreamedIff(boundary: string, used: string, fileSize: nat, content: string)
    ensures Predicted(used, fileSize) == |Body(boundary, fileSize, content)| <==>
            fileSize - |content| == 3 * (|boundary| - |used|)
    ensures used == boundary ==> (Predicted(used, fileSize) == |Body(boundary, fileSize, content)| <==>
              |content| == fileSize)
  {
  }

  // ----- The text of the message -----

  lemma OneLine(a: (string, string))
    ensures HeaderLines([a]) == a.0 + ": " + a.1 + CRLF
  {
    assert [a][..0] == [];
    assert HeaderLines([a]) == "" + a.0 + ": " + a.1 + CRLF;
    assert "" + a.0 == a.0;
  }

  lemma FourLines(a: (string, string), b: (string, string), c: (string, string), d: (string, string))
    ensures HeaderLines([a, b, c, d]) ==
            a.0 + ": " + a.1 + CRLF + b.0 + ": " + b.1 + CRLF + c.0 + ": " + c.1 + CRLF + d.0 + ": " + d.1 + CRLF
  {
    OneLine(a);
    assert [a, b][..1] == [a];
    assert HeaderLines([a, b]) == HeaderLines([a]) + b.0 + ": " + b.1 + CRLF;
    assert [a, b, c][..2] == [a, b];
    assert HeaderLines([a, b, c]) == HeaderLines([a, b]) + c.0 + ": " + c.1 + CRLF;
    assert [a, b, c, d][..3] == [a, b, c];
  }

  /** The message in full, with any text for the size: a delimiter and one header line before the empty
      JSON list, a delimiter and four header lines before the zip, and the closing delimiter. */
  ghost predicate IsMessage(body: string, boundary: string, size: string, content: string) {
    body ==
    ("--" + boundary + "\r\n"
     + ("Content-Disposition" + ": " + "form-data; name=\"resources\"" + "\r\n")
     + "\r\n") + "[]"
    + ("\r\n" + "--" + boundary + "\r\n"
       + ("Content-Disposition" + ": " + "form-data; name=\"application\"; filename=\"application.zip\"" + "\r\n"
          + "Content-Length" + ": " + size + "\r\n"
          + "Content-Transfer-Encoding" + ": " + "binary" + "\r\n"
          + "Content-Type" + ": " + "application/zip" + "\r\n")
       + "\r\n") + content
    + ("\r\n" + "--" + boundary + "--" + "\r\n")
  }

  lemma FirstPart(boundary: string, header: seq<(string, string)>)
    ensures PartStart(boundary, true, header) == "--" + boundary + CRLF + HeaderLines(header) + CRLF
  {
    assert "" + "--" == "--";
  }

  lemma BodyIsMessage(boundary: string, fileSize: nat, content: string)
    ensures IsMessage(Body(boundary, fileSize, content), boundary, Decimal(fileSize), content)
  {
    FirstPart(boundary, RESOURCES_HEADER);
    OneLine(RESOURCES_HEADER[0]);
    var h := ZipHeader(fileSize);
    FourLines(h[0], h[1], h[2], h[3]);
  }

  // ----- Decimal -----

  function ValueOf(digits: string): int
  {
    if digits == "" then 0
    else 10 * ValueOf(digits[..|digits| - 1]) + (digits[|digits| - 1] as int - '0' as int)
  }

  ghost predicate AllDigits(text: string) {
    forall k :: 0 <= k < |text| ==> '0' <= text[k] <= '9'
  }

  /** Digits that read as n, without a leading zero. */
  ghost predicate DecimalOf(n: nat, digits: string) {
    && ValueOf(digits) == n
    && AllDigits(digits)
    && |digits| > 0
    && (digits[0] == '0' ==> digits == "0")
  }

  lemma {:induction false} DecimalReads(n: nat)
    ensures DecimalOf(n, Decimal(n))
    ensures n > 0 ==> Decimal(n)[0] != '0'
  {
    var d := DIGITS[n % 10];
    assert d as int == n % 10 + '0' as int;
    if n < 10 {
      assert Decimal(n)[..0] == "";
      assert ValueOf([d]) == n;
    } else {
      DecimalReads(n / 10);
      assert (Decimal(n / 10) + [d])[..|Decimal(n / 10)|] == Decimal(n / 10);
    }
  }

  lemma {:induction false} DecimalIsUnique(n: nat, digits: string)
    requires DecimalOf(n, digits)
    ensures digits == Decimal(n)
  {
    var last := |digits| - 1;
    var front := digits[..last];
    assert digits == front + [digits[last]];
    var d := digits[last] as int - '0' as int;
    assert DIGITS[d] == digits[last];
    if last == 0 {
      assert ValueOf(front) == 0;
    } else {
      assert front[0] == digits[0];
      ValueNonNegative(front);
      assert ValueOf(front) == n / 10 && n % 10 == d;
      if front[0] == '0' {
        assert false;
      }
      DecimalIsUnique(n / 10, front);
      PositiveValue(front);
    }
  }

  lemma {:induction false} ValueNonNegative(digits: string)
    requires AllDigits(digits)
    ensures ValueOf(digits) >= 0
  {
    if digits != "" {
        ValueNonNegative(digits[..|digits| - 1]);
    }
  }

  lemma {:induction false} PositiveValue(digits: string)
    requires digits != "" && digits[0] != '0'
    requires AllDigits(digits)
    ensures ValueOf(digits) > 0
  {
    if |digits| > 1 {
      assert digits[..|digits| - 1][0] == digits[0];
      PositiveValue(digits[..|digits| - 1]);
    } else {
      assert digits[..0] == "";
    }
  }

  // ----- The boundary -----

  /** A boundary the writer chooses is sixty lower-case hexadecimal digits. */
  ghost predicate Chosen(boundary: string) {
    |boundary| == 60 && forall c :: c in boundary ==> '0' <= c <= '9' || 'a' <= c <= 'f'
  }

  /** The prediction of a body with a chosen boundary is made with that boundary, so the announced length
      is the streamed one if and only if the content has the announced size. */
  lemma ChosenIsAnnounced(random: string, fileSize: nat, boundary: string, content: string)
    requires Chosen(boundary)
    ensures Accepted(boundary)
    ensures (Predicted(if Accepted(boundary) then boundary else random, fileSize)
             == |Body(boundary, fileSize, content)|) <==> |content| == fileSize
  {
    assert boundary[59] in boundary;
    PredictedIsStreamedIff(boundary, boundary, fileSize, content);
  }
}
