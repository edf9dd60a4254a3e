/** The text the Go response writer puts into a header block: the status
    line and one `key: value` line per header value, each value cleaned of
    line breaks and surrounding white space first. */
module GoText {
  import opened Numerals

  const CR: char := '\r'
  const LF: char := '\n'

  /** No line-break character anywhere in `s`. */
  predicate NoBreaks(s: string)
  {
    forall i :: 0 <= i < |s| ==> s[i] != CR && s[i] != LF
  }

  /** `s` neither starts nor ends with white space. */
  predicate Trimmed(s: string)
  {
    s == [] || (!IsSpace(s[0]) && !IsSpace(s[|s| - 1]))
  }

  predicate AllSpace(s: string)
  {
    forall i :: 0 <= i < |s| ==> IsSpace(s[i])
  }

  /** Go's table of registered status codes and their reason phrases,
      one code per row, in increasing order of code. */
  const STATUS_ROWS: nat := 62

  function StatusRow(i: nat): (int, string)
  {
    match i
    case 0 => (100, "Continue")
    case 1 => (101, "Switching Protocols")
    case 2 => (102, "Processing")
    case 3 => (103, "Early Hints")
    case 4 => (200, "OK")
    case 5 => (201, "Created")
    case 6 => (202, "Accepted")
    case 7 => (203, "Non-Authoritative Information")
    case 8 => (204, "No Content")
    case 9 => (205, "Reset Content")
    case 10 => (206, "Partial Content")
    case 11 => (207, "Multi-Status")
    case 12 => (208, "Already Reported")
    case 13 => (226, "IM Used")
    case 14 => (300, "Multiple Choices")
    case 15 => (301, "Moved Permanently")
    case 16 => (302, "Found")
    case 17 => (303, "See Other")
    case 18 => (304, "Not Modified")
    case 19 => (305, "Use Proxy")
    case 20 => (307, "Temporary Redirect")
    case 21 => (308, "Permanent Redirect")
    case 22 => (400, "Bad Request")
    case 23 => (401, "Unauthorized")
    case 24 => (402, "Payment Required")
    case 25 => (403, "Forbidden")
    case 26 => (404, "Not Found")
    case 27 => (405, "Method Not Allowed")
    case 28 => (406, "Not Acceptable")
    case 29 => (407, "Proxy Authentication Required")
    case 30 => (408, "Request Timeout")
    case 31 => (409, "Conflict")
    case 32 => (410, "Gone")
    case 33 => (411, "Length Required")
    case 34 => (412, "Precondition Failed")
    case 35 => (413, "Request Entity Too Large")
    case 36 => (414, "Request URI Too Long")
    case 37 => (415, "Unsupported Media Type")
    case 38 => (416, "Requested Range Not Satisfiable")
    case 39 => (417, "Expectation Failed")
    case 40 => (418, "I'm a teapot")
    case 41 => (421, "Misdirected Request")
    case 42 => (422, "Unprocessable Entity")
    case 43 => (423, "Locked")
    case 44 => (424, "Failed Dependency")
    case 45 => (425, "Too Early")
    case 46 => (426, "Upgrade Required")
    case 47 => (428, "Precondition Required")
    case 48 => (429, "Too Many Requests")
    case 49 => (431, "Request Header Fields Too Large")
    case 50 => (451, "Unavailable For Legal Reasons")
    case 51 => (500, "Internal Server Error")
    case 52 => (501, "Not Implemented")
    case 53 => (502, "Bad Gateway")
    case 54 => (503, "Service Unavailable")
    case 55 => (504, "Gateway Timeout")
    case 56 => (505, "HTTP Version Not Supported")
    case 57 => (506, "Variant Also Negotiates")
    case 58 => (507, "Insufficient Storage")
    case 59 => (508, "Loop Detected")
    case 60 => (510, "Not Extended")
    case 61 => (511, "Network Authentication Required")
    case _ => (0, "")
  }

  /** The reason phrase of `code` among the rows from `i` on. */
  function StatusFrom(i: nat, code: int): string
    decreases STATUS_ROWS - i
  {
    if i >= STATUS_ROWS then ""
    else if StatusRow(i).0 == code then StatusRow(i).1
    else StatusFrom(i + 1, code)
  }

  /** Go's `http.StatusText`: the reason phrase of a registered status
      code, and the empty string for any other code. */
  function StatusText(code: int): string
  {
    StatusFrom(0, code)
  }

  /** The status line of a header block: the protocol, the decimal status
      code and its reason phrase, separated by single spaces. */
  function StatusLine(http11: bool, status: int): string
  {
    (if http11 then "HTTP/1.1" else "HTTP/1.0") + " " + Decimal(status) + " " + StatusText(status) + "\r\n"
  }

  /** A client reads the status code back from the status line: it is the
      decimal text between the space that ends the 8-character protocol
      field and the next space, and the line ends with CR LF. */
  lemma StatusLineReads(http11: bool, status: int)
    ensures var line := StatusLine(http11, status);
            var end := 9 + |Decimal(status)|;
            && end < |line| && line[8] == ' ' && line[end] == ' '
            && line[..8] == (if http11 then "HTTP/1.1" else "HTTP/1.0")
            && Strtol(line[9..end]) == status
            && line[end + 1..|line| - 2] == StatusText(status)
            && line[|line| - 2..] == "\r\n"
  {
    LineShape(if http11 then "HTTP/1.1" else "HTTP/1.0", status, StatusText(status));
  }

  lemma LineShape(proto: string, status: int, text: string)
    requires |proto| == 8
    ensures var line := proto + " " + Decimal(status) + " " + text + "\r\n";
            var end := 9 + |Decimal(status)|;
            && end < |line| && line[8] == ' ' && line[end] == ' '
            && line[..8] == proto
            && Strtol(line[9..end]) == status
            && line[end + 1..|line| - 2] == text
            && line[|line| - 2..] == "\r\n"
  {
    var d := Decimal(status);
    var line := proto + " " + d + " " + text + "\r\n";
    assert line[9..9 + |d|] == d;
    StrtolOfDecimal(status);
  }

  /** `strings.NewReplacer("\n", " ", "\r", " ").Replace(v)`. */
  function ReplaceBreaks(v: string): (r: string)
    ensures |r| == |v|
  {
    if v == [] then []
    else [if v[0] == CR || v[0] == LF then ' ' else v[0]] + ReplaceBreaks(v[1..])
  }

  /** Replacing turns exactly the line breaks into spaces and keeps every
      other character in place. */
  lemma {:induction false} ReplaceBreaksAt(v: string)
    ensures forall i :: 0 <= i < |v| ==>
              ReplaceBreaks(v)[i] == if v[i] == CR || v[i] == LF then ' ' else v[i]
  {
    if v != [] {
      ReplaceBreaksAt(v[1..]);
      assert forall i :: 1 <= i < |v| ==> ReplaceBreaks(v)[i] == ReplaceBreaks(v[1..])[i - 1];
    }
  }

  /** Trailing white space removed (`strings.TrimRight` half of TrimSpace). */
  function DropTrailingSpaces(s: string): (r: string)
    ensures |r| <= |s| && r == s[..|r|] && AllSpace(s[|r|..])
    ensures r == [] || !IsSpace(r[|r| - 1])
  {
    if s != [] && IsSpace(s[|s| - 1]) then DropTrailingSpaces(s[..|s| - 1]) else s
  }

  /** Leading white space removed; the result is a suffix of `s`. */
  lemma {:induction false} SkipSpacesSuffix(s: string)
    ensures var r := SkipSpaces(s);
            r == s[|s| - |r|..] && AllSpace(s[..|s| - |r|]) && (r == [] || !IsSpace(r[0]))
    decreases |s|
  {
    if s != [] && IsSpace(s[0]) {
      SkipSpacesSuffix(s[1..]);
      var r := SkipSpaces(s);
      assert s[|s| - |r|..] == s[1..][|s| - 1 - |r|..];
      assert s[..|s| - |r|] == [s[0]] + s[1..][..|s| - 1 - |r|];
    }
  }

  /** `strings.TrimSpace` over ASCII white space. */
  function TrimSpace(s: string): string
  {
    DropTrailingSpaces(SkipSpaces(s))
  }

  /** TrimSpace keeps a contiguous run of `s` and removes only white space
      around it; what it keeps neither starts nor ends with white space. */
  lemma TrimSpaceSlice(s: string)
    ensures var r := TrimSpace(s);
            exists i :: 0 <= i <= |s| - |r| && s[i..i + |r|] == r && AllSpace(s[..i]) && AllSpace(s[i + |r|..])
    ensures Trimmed(TrimSpace(s))
  {
    var t := SkipSpaces(s);
    SkipSpacesSuffix(s);
    var r := TrimSpace(s);
    var i := |s| - |t|;
    assert r == t[..|r|];
    assert s[i..i + |r|] == r;
    assert s[i + |r|..] == t[|r|..];
    if r != [] {
      assert r[0] == t[0];
    }
  }

  /** A string that has no white space around it is left as it is. */
  lemma TrimSpaceOfTrimmed(s: string)
    requires Trimmed(s)
    ensures TrimSpace(s) == s
  {
    if s != [] {
      assert SkipSpaces(s) == s;
    }
  }

  /** Every character of the trimmed text comes from the original. */
  lemma TrimSpaceKeepsChars(s: string)
    ensures forall c :: c in TrimSpace(s) ==> c in s
  {
    TrimSpaceSlice(s);
    var r := TrimSpace(s);
    var i :| 0 <= i <= |s| - |r| && s[i..i + |r|] == r;
    assert forall j :: 0 <= j < |r| ==> r[j] == s[i + j];
  }

  /** A header value as it goes into the header block. */
  function Sanitize(v: string): string
  {
    TrimSpace(ReplaceBreaks(v))
  }

  /** No CR or LF survives in a sanitised value, and no white space
      surrounds it. */
  lemma SanitizeClean(v: string)
    ensures NoBreaks(Sanitize(v)) && Trimmed(Sanitize(v))
  {
    var u := ReplaceBreaks(v);
    ReplaceBreaksAt(v);
    assert CR !in u && LF !in u;
    TrimSpaceKeepsChars(u);
    TrimSpaceSlice(u);
  }

  /** Sanitising changes nothing in a value that has no line break and no
      surrounding white space. */
  lemma SanitizeKeepsClean(v: string)
    requires NoBreaks(v) && Trimmed(v)
    ensures Sanitize(v) == v
  {
    ReplaceBreaksAt(v);
    assert ReplaceBreaks(v) == v;
    TrimSpaceOfTrimmed(v);
  }

  /** Sanitising twice is sanitising once. */
  lemma SanitizeIdempotent(v: string)
    ensures Sanitize(Sanitize(v)) == Sanitize(v)
  {
    SanitizeClean(v);
    SanitizeKeepsClean(Sanitize(v));
  }

  /** One header line, as the writer appends it for key `k` and value `v`. */
  function HeaderLine(k: string, v: string): string
  {
    k + ": " + Sanitize(v) + "\r\n"
  }

  /** For a key without line breaks, a header line has exactly one line
      break, its final CR LF: a value cannot start a new header or end the
      block early. */
  lemma HeaderLineEndsOnce(k: string, v: string)
    requires NoBreaks(k)
    ensures var line := HeaderLine(k, v);
            NoBreaks(line[..|line| - 2]) && line[|line| - 2..] == "\r\n"
  {
    SanitizeClean(v);
    var line := HeaderLine(k, v);
    assert line[..|line| - 2] == k + ": " + Sanitize(v);
  }
}
