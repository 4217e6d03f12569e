/**
  The request `GetImPriceE` sends: a fixed SOAP 1.1 envelope template (the
  envelope namespace of section 4 of SOAP 1.1) with the four arguments spliced
  in verbatim, trimmed of surrounding white space, and the `SOAPAction` header
  value `urn:<operation>` (section 6.1.1 of SOAP 1.1).
*/
module Soap {

  const Operation: string := "GetImPriceE"

  /**
    A request template: the literal text around its four argument slots
    (start date, end date, start hour, end hour).
  */
  datatype Frame = Frame(head: string, afterStartDate: string, afterEndDate: string, afterStartHour: string, tail: string)

  /** The envelope up to the start-date argument. */
  const ImPriceHead: string :=
    "<?xml version=\"1.0\" encoding=\"UTF-8\" ?>\n"
    + ("    <soapenv:Envelope\n"
    + ("       xmlns:soapenv=\"http://schemas.xmlsoap.org/soap/envelope/\"\n"
    + ("       xmlns:pub=\"http://www.ote-cr.cz/schema/service/public\">\n"
    + ("\t\t<soapenv:Header/>\n"
    + ("        <soapenv:Body>\n"
    + ("            <pub:GetImPriceE>\n"
    + "\t\t\t\t<pub:StartDate>"))))))

  /** The envelope after the end-hour argument. */
  const ImPriceTail: string :=
    "</pub:EndHour>\n"
    + ("            </pub:GetImPriceE>\n"
    + ("        </soapenv:Body>\n"
    + "    </soapenv:Envelope>"))

  const ImPriceFrame: Frame := Frame(
    ImPriceHead,
    "</pub:StartDate>\n\t\t\t\t<pub:EndDate>",
    "</pub:EndDate>\n\t\t\t\t<pub:StartHour>",
    "</pub:StartHour>\n\t\t\t\t<pub:EndHour>",
    ImPriceTail)

  /** Every literal piece begins with a tag, and the last one closes the document with `>`. */
  predicate WellFramed(f: Frame)
  {
    && |f.head| > 0 && f.head[0] == '<'
    && |f.afterStartDate| > 0 && f.afterStartDate[0] == '<'
    && |f.afterEndDate| > 0 && f.afterEndDate[0] == '<'
    && |f.afterStartHour| > 0 && f.afterStartHour[0] == '<'
    && |f.tail| > 0 && f.tail[0] == '<' && f.tail[|f.tail| - 1] == '>'
  }

  /** `"urn:" + op`, the `SOAPAction` header value that names the operation. */
  function SoapAction(op: string): string
  {
    "urn:" + op
  }

  /** What `sendRequest` posts: the `SOAPAction` header and the request body. */
  datatype Post = Post(action: string, body: string)

  /** The four arguments in their slots, right-nested so that each slot can be cut off in turn. */
  function Fill(f: Frame, startDate: string, endDate: string, startHour: string, endHour: string): string
  {
    f.head + (startDate + (f.afterStartDate + (endDate + (f.afterEndDate + (startHour + (f.afterStartHour + (endHour + f.tail)))))))
  }

  /** `unicode.IsSpace`. */
  predicate IsSpace(c: char)
  {
    c == ' ' || c == '\t' || c == '\n' || c == '\r' || c == '\U{000B}' || c == '\U{000C}'
    || c == '\U{0085}' || c == '\U{00A0}' || c == '\U{1680}' || ('\U{2000}' <= c <= '\U{200A}')
    || c == '\U{2028}' || c == '\U{2029}' || c == '\U{202F}' || c == '\U{205F}' || c == '\U{3000}'
  }

  function TrimLeft(s: string): (r: string)
    ensures |r| <= |s| && r == s[|s| - |r|..]
    ensures r == [] || !IsSpace(r[0])
  {
    if s != [] && IsSpace(s[0]) then TrimLeft(s[1..]) else s
  }

  function TrimRight(s: string): (r: string)
    ensures |r| <= |s| && r == s[..|r|]
    ensures r == [] || !IsSpace(r[|r| - 1])
  {
    if s != [] && IsSpace(s[|s| - 1]) then TrimRight(s[..|s| - 1]) else s
  }

  /** `strings.TrimSpace`. */
  function TrimSpace(s: string): string
  {
    TrimRight(TrimLeft(s))
  }

  /**
    The request body `GetImPriceE` posts: the raw-string template, which
    begins with a newline and a tab before the XML declaration, filled in by
    `fmt.Sprintf` and trimmed.
  */
  function Payload(startDate: string, endDate: string, startHour: string, endHour: string): (body: string)
    ensures body == Fill(ImPriceFrame, startDate, endDate, startHour, endHour)
  {
    ImPriceFrameWellFramed();
    TrimSpaceFramed(ImPriceFrame, startDate, endDate, startHour, endHour);
    TrimSpace("\n\t" + Fill(ImPriceFrame, startDate, endDate, startHour, endHour))
  }

  /**
    The request `GetImPriceE` posts for its four arguments: the header
    `urn:GetImPriceE` and the envelope with the four arguments in their slots.
    `PostCarriesPayload` shows the body is the trimmed payload the source builds.
  */
  function ImPricePost(startDate: string, endDate: string, startHour: string, endHour: string): (p: Post)
    ensures p.action == "urn:GetImPriceE"
  {
    OperationAction();
    Post(SoapAction(Operation), Fill(ImPriceFrame, startDate, endDate, startHour, endHour))
  }

  /** The header of the intraday price query. */
  lemma OperationAction()
    ensures SoapAction(Operation) == "urn:GetImPriceE"
  {
  }

  // ---------------------------------------------------------------------------
  // Properties

  lemma ImPriceFrameWellFramed()
    ensures WellFramed(ImPriceFrame)
  {
    assert ImPriceHead[0] == '<';
    assert ImPriceTail[0] == '<' && ImPriceTail[|ImPriceTail| - 1] == '>';
  }

  lemma {:induction false} TrimLeftSkips(w: string, e: string)
    requires forall i :: 0 <= i < |w| ==> IsSpace(w[i])
    requires e != [] && !IsSpace(e[0])
    ensures TrimLeft(w + e) == e
  {
    if w != [] {
      assert (w + e)[1..] == w[1..] + e;
      TrimLeftSkips(w[1..], e);
    } else {
      assert w + e == e;
    }
  }

  /** A filled well-framed template starts with `<` and ends with `>`, whatever the arguments. */
  lemma FillEnds(f: Frame, startDate: string, endDate: string, startHour: string, endHour: string)
    requires WellFramed(f)
    ensures var e := Fill(f, startDate, endDate, startHour, endHour);
      |e| > 0 && e[0] == '<' && e[|e| - 1] == '>'
  {
    var rest := startDate + (f.afterStartDate + (endDate + (f.afterEndDate + (startHour + (f.afterStartHour + endHour)))));
    assert Fill(f, startDate, endDate, startHour, endHour) == f.head + rest + f.tail;
  }

  lemma TrimSpaceFramed(f: Frame, startDate: string, endDate: string, startHour: string, endHour: string)
    requires WellFramed(f)
    ensures TrimSpace("\n\t" + Fill(f, startDate, endDate, startHour, endHour)) == Fill(f, startDate, endDate, startHour, endHour)
  {
    FillEnds(f, startDate, endDate, startHour, endHour);
    TrimLeftSkips("\n\t", Fill(f, startDate, endDate, startHour, endHour));
  }

  /**
    What `GetImPriceE` posts is the trimmed, filled template as the source
    builds it, under the header that names the operation.
  */
  lemma PostCarriesPayload(startDate: string, endDate: string, startHour: string, endHour: string)
    ensures ImPricePost(startDate, endDate, startHour, endHour) ==
      Post(SoapAction(Operation), Payload(startDate, endDate, startHour, endHour))
  {
  }

  /** The position of the first `<` in `s`, or `|s|` if there is none. */
  function TagStart(s: string): (k: nat)
    ensures k <= |s|
  {
    if s == [] || s[0] == '<' then 0 else 1 + TagStart(s[1..])
  }

  lemma {:induction false} TagStartAfter(x: string, y: string)
    requires '<' !in x && y != [] && y[0] == '<'
    ensures TagStart(x + y) == |x|
  {
    if x != [] {
      assert (x + y)[1..] == x[1..] + y;
      TagStartAfter(x[1..], y);
    }
  }

  /** Cutting two strings at their first `<`: the parts before it must coincide. */
  lemma CutAtTag(x: string, y: string, x': string, y': string)
    requires '<' !in x && '<' !in x'
    requires y != [] && y[0] == '<' && y' != [] && y'[0] == '<'
    requires x + y == x' + y'
    ensures x == x' && y == y'
  {
    TagStartAfter(x, y);
    TagStartAfter(x', y');
    assert x == (x + y)[..|x|];
    assert x' == (x' + y')[..|x|];
    assert y == (x + y)[|x|..];
    assert y' == (x' + y')[|x|..];
  }

  /** In a well-framed template, arguments free of `<` can be read back from the filled text. */
  lemma FillInjective(f: Frame, a1: string, b1: string, c1: string, d1: string, a2: string, b2: string, c2: string, d2: string)
    requires WellFramed(f)
    requires '<' !in a1 && '<' !in b1 && '<' !in c1 && '<' !in d1
    requires '<' !in a2 && '<' !in b2 && '<' !in c2 && '<' !in d2
    requires Fill(f, a1, b1, c1, d1) == Fill(f, a2, b2, c2, d2)
    ensures a1 == a2 && b1 == b2 && c1 == c2 && d1 == d2
  {
    var r1 := f.afterStartDate + (b1 + (f.afterEndDate + (c1 + (f.afterStartHour + (d1 + f.tail)))));
    var r2 := f.afterStartDate + (b2 + (f.afterEndDate + (c2 + (f.afterStartHour + (d2 + f.tail)))));
    assert (f.head + (a1 + r1))[|f.head|..] == a1 + r1;
    assert (f.head + (a2 + r2))[|f.head|..] == a2 + r2;
    CutAtTag(a1, r1, a2, r2);
    var s1 := f.afterEndDate + (c1 + (f.afterStartHour + (d1 + f.tail)));
    var s2 := f.afterEndDate + (c2 + (f.afterStartHour + (d2 + f.tail)));
    assert r1[|f.afterStartDate|..] == b1 + s1;
    assert r2[|f.afterStartDate|..] == b2 + s2;
    CutAtTag(b1, s1, b2, s2);
    var t1 := f.afterStartHour + (d1 + f.tail);
    var t2 := f.afterStartHour + (d2 + f.tail);
    assert s1[|f.afterEndDate|..] == c1 + t1;
    assert s2[|f.afterEndDate|..] == c2 + t2;
    CutAtTag(c1, t1, c2, t2);
    assert t1[|f.afterStartHour|..] == d1 + f.tail;
    assert t2[|f.afterStartHour|..] == d2 + f.tail;
    CutAtTag(d1, f.tail, d2, f.tail);
  }

  /**
    Arguments free of `<`, as the dates and hours the program renders are,
    can be read back from the payload: distinct requests have distinct bodies.
  */
  lemma PayloadInjective(a1: string, b1: string, c1: string, d1: string, a2: string, b2: string, c2: string, d2: string)
    requires '<' !in a1 && '<' !in b1 && '<' !in c1 && '<' !in d1
    requires '<' !in a2 && '<' !in b2 && '<' !in c2 && '<' !in d2
    ensures Payload(a1, b1, c1, d1) == Payload(a2, b2, c2, d2) <==> a1 == a2 && b1 == b2 && c1 == c2 && d1 == d2
  {
    if Payload(a1, b1, c1, d1) == Payload(a2, b2, c2, d2) {
      ImPriceFrameWellFramed();
      FillInjective(ImPriceFrame, a1, b1, c1, d1, a2, b2, c2, d2);
    }
  }

  /** Splitting the same text differently between the first two slots gives the same filled template. */
  lemma FillDoesNotEscape(f: Frame, x: string, y: string, z: string, startHour: string, endHour: string)
    ensures Fill(f, x + f.afterStartDate + y, z, startHour, endHour) == Fill(f, x, y + f.afterStartDate + z, startHour, endHour)
  {
    var rest := f.afterEndDate + (startHour + (f.afterStartHour + (endHour + f.tail)));
    assert (x + f.afterStartDate + y) + (f.afterStartDate + (z + rest))
        == x + (f.afterStartDate + ((y + f.afterStartDate + z) + rest));
  }

  /**
    The arguments are not escaped: a start date that carries markup produces
    the same body as a different split of the same text into start and end
    date, so the service cannot tell the two requests apart.
  */
  lemma ArgumentsAreNotEscaped(x: string, y: string, z: string, startHour: string, endHour: string)
    ensures var m := ImPriceFrame.afterStartDate;
      Payload(x + m + y, z, startHour, endHour) == Payload(x, y + m + z, startHour, endHour)
  {
    var m := ImPriceFrame.afterStartDate;
    FillDoesNotEscape(ImPriceFrame, x, y, z, startHour, endHour);
  }
}
