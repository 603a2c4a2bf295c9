/** The C side of the RASP agent: bounded field copies, JSON escaping into a fixed buffer,
    and the verdict line. A C byte is a Dafny char; no function looks above 127. */
module JsonEscape {
  import opened Scores

  const NUL := '\0'
  const QUOTE := '\"'
  const BACKSLASH := '\\'

  const MAX_EVIDENCE := 256
  const MAX_REQID := 64
  const MAX_IP := 64
  const MAX_USER := 64
  const LINE_CAP := 1024

  /** The C string that starts at the beginning of a buffer. */
  function CString(buffer: seq<char>): (s: string)
    ensures |s| <= |buffer| && NUL !in s
  {
    if buffer == [] || buffer[0] == NUL then [] else [buffer[0]] + CString(buffer[1..])
  }

  predicate Special(c: char) {
    c == QUOTE || c == BACKSLASH
  }

  /** Control characters become spaces. */
  function Cleaned(c: char): char {
    if c < ' ' then ' ' else c
  }

  function Clean(s: string): string {
    if s == [] then [] else Clean(s[..|s| - 1]) + [Cleaned(s[|s| - 1])]
  }

  function EscapeChar(c: char): string {
    if Special(c) then [BACKSLASH, c] else [Cleaned(c)]
  }

  function Escape(s: string): string {
    if s == [] then [] else Escape(s[..|s| - 1]) + EscapeChar(s[|s| - 1])
  }

  /** How many source characters fit: each one needs two free bytes before the terminator,
      whether it is escaped or not. */
  function Fitting(src: string, cap: nat): nat {
    if src == [] then 0
    else
      var n := Fitting(src[..|src| - 1], cap);
      if n == |src| - 1 && |Escape(src[..n])| + 2 < cap then n + 1 else n
  }

  /** One pass of json_escape's loop: c, escaped, at position j; nothing else changes. */
  method PutEscaped(dst: array<char>, j: nat, c: char) returns (next: nat)
    requires j + 2 <= dst.Length
    modifies dst
    ensures next == j + |EscapeChar(c)|
    ensures dst[..next] == old(dst[..j]) + EscapeChar(c)
    ensures forall k :: next <= k < dst.Length ==> dst[k] == old(dst[k])
  {
    next := j + 1;
    if c == QUOTE || c == BACKSLASH {
      dst[j] := BACKSLASH;
      dst[j + 1] := c;
      next := j + 2;
    } else if c == '\n' || c == '\r' || c == '\t' {
      dst[j] := ' ';
    } else if c < ' ' {
      dst[j] := ' ';
    } else {
      dst[j] := c;
    }
  }

  /** json_escape. The source may be missing; nothing past cap is written, the rest of the
      buffer is untouched, and no escape is cut in half. */
  method JsonEscape(dst: array<char>, cap: nat, src: Option<string>)
    requires 1 <= cap <= dst.Length
    requires src.Some? ==> NUL !in src.value
    modifies dst
    ensures var s := if src.Some? then src.value else [];
            var out := Escape(s[..Kept(s, cap)]);
            && |out| < cap && dst[..|out|] == out && dst[|out|] == NUL
            && (forall k :: |out| < k < dst.Length ==> dst[k] == old(dst[k]))
  {
    var j := 0;
    if src.Some? {
      var s := src.value;
      var i := 0;
      assert s[..0] == [];
      while i < |s| && j + 2 < cap
        invariant 0 <= i <= |s| && j == |Escape(s[..i])| < cap
        invariant i == Fitting(s[..i], cap)
        invariant dst[..j] == Escape(s[..i])
        invariant forall k :: j <= k < dst.Length ==> dst[k] == old(dst[k])
      {
        EscapeNext(s, cap, i);
        j := PutEscaped(dst, j, s[i]);
        i := i + 1;
      }
      FittingStops(s, cap, i);
    }
    dst[j] := NUL;
  }

  lemma EscapeNext(s: string, cap: nat, i: nat)
    requires i < |s|
    ensures Escape(s[..i + 1]) == Escape(s[..i]) + EscapeChar(s[i])
    ensures Fitting(s[..i], cap) == i && |Escape(s[..i])| + 2 < cap ==> Fitting(s[..i + 1], cap) == i + 1
  {
    assert s[..i + 1][..i] == s[..i];
    assert s[..i][..i] == s[..i];
  }

  function Kept(src: string, cap: nat): (n: nat)
    ensures n <= |src|
  {
    FittingPrefix(src, cap);
    Fitting(src, cap)
  }

  lemma {:induction false} FittingPrefix(src: string, cap: nat)
    ensures Fitting(src, cap) <= |src|
  {
    if src != [] {
      FittingPrefix(src[..|src| - 1], cap);
    }
  }

  /** Once a character does not fit, no later one does. */
  lemma {:induction false} FittingStops(src: string, cap: nat, i: nat)
    requires i <= |src| && Fitting(src[..i], cap) == i
    requires i < |src| ==> |Escape(src[..i])| + 2 >= cap
    ensures Fitting(src, cap) == i
  {
    if i == |src| {
      assert src[..i] == src;
    } else {
      var n := |src| - 1;
      if i == n {
        assert src[..n][..i] == src[..i];
      } else {
        assert src[..n][..i] == src[..i];
        FittingStops(src[..n], cap, i);
      }
    }
  }

  // ---------- reading it back ----------

  /** What a two-character escape stands for (section 7 of RFC 8259). The \u form, which
      the emitter never produces, is not read. */
  function Unescape(c: char): Option<char> {
    if c == QUOTE || c == BACKSLASH || c == '/' then Some(c)
    else if c == 'b' then Some(8 as char)
    else if c == 'f' then Some(12 as char)
    else if c == 'n' then Some('\n')
    else if c == 'r' then Some('\r')
    else if c == 't' then Some('\t')
    else None
  }

  /** Decodes the body of a JSON string: no bare quote, no control character, no unfinished
      or unknown escape. */
  function Decode(s: string): Option<string> {
    if s == [] then Some([])
    else if s[0] == BACKSLASH then
      if |s| == 1 || Unescape(s[1]).None? then None
      else
        var rest := Decode(s[2..]);
        if rest.None? then None else Some([Unescape(s[1]).value] + rest.value)
    else if s[0] == QUOTE || s[0] < ' ' then None
    else
      var rest := Decode(s[1..]);
      if rest.None? then None else Some([s[0]] + rest.value)
  }

  lemma {:induction false} DecodeAppend(x: string, c: char)
    requires Decode(x).Some?
    ensures Decode(x + EscapeChar(c)) == Some(Decode(x).value + [Cleaned(c)])
  {
    if x == [] {
      assert x + EscapeChar(c) == EscapeChar(c);
      if Special(c) {
        assert EscapeChar(c)[2..] == [];
        assert [c] + [] == [] + [Cleaned(c)];
      } else {
        var y := [Cleaned(c)];
        assert y[1..] == [] && Decode(y[1..]) == Some([]);
        assert y[0] == Cleaned(c) && !Special(y[0]) && y[0] >= ' ';
        assert Decode(y) == Some([y[0]] + []);
        assert [y[0]] + [] == [] + [y[0]];
      }
    } else {
      var n := if x[0] == BACKSLASH then 2 else 1;
      var y := x + EscapeChar(c);
      DecodeAppend(x[n..], c);
      assert y[n..] == x[n..] + EscapeChar(c);
      assert forall k :: 0 <= k < n ==> y[k] == x[k];
      var head := if n == 2 then Unescape(x[1]).value else x[0];
      var rest := Decode(x[n..]).value;
      assert Decode(x).value == [head] + rest;
      assert [head] + (rest + [Cleaned(c)]) == ([head] + rest) + [Cleaned(c)];
    }
  }

  /** Decoding an escaped text gives the text with control characters as spaces. */
  lemma {:induction false} DecodeEscape(s: string)
    ensures Decode(Escape(s)) == Some(Clean(s))
  {
    if s != [] {
      DecodeEscape(s[..|s| - 1]);
      DecodeAppend(Escape(s[..|s| - 1]), s[|s| - 1]);
    }
  }

  predicate Printable(s: string) {
    forall i :: 0 <= i < |s| ==> s[i] >= ' '
  }

  /** Text without control characters survives unchanged, quotes and backslashes included. */
  lemma {:induction false} CleanIsIdentity(s: string)
    requires Printable(s)
    ensures Clean(s) == s
  {
    if s != [] {
      CleanIsIdentity(s[..|s| - 1]);
    }
  }

  lemma {:induction false} EscapeLength(s: string)
    ensures |s| <= |Escape(s)| <= 2 * |s|
  {
    if s != [] {
      EscapeLength(s[..|s| - 1]);
    }
  }

  lemma {:induction false} EscapePrefix(s: string, n: nat)
    requires n <= |s|
    ensures |Escape(s[..n])| <= |Escape(s)|
  {
    if n == |s| {
      assert s[..n] == s;
    } else {
      assert s[..|s| - 1][..n] == s[..n];
      EscapePrefix(s[..|s| - 1], n);
    }
  }

  /** Nothing is lost exactly when everything before the last character leaves three bytes. */
  lemma {:induction false} KeptAll(s: string, cap: nat)
    requires s != []
    ensures Kept(s, cap) == |s| <==> |Escape(s[..|s| - 1])| + 2 < cap
  {
    var n := |s| - 1;
    if n > 0 {
      KeptAll(s[..n], cap);
      EscapePrefix(s[..n], n - 1);
      assert s[..n][..n - 1] == s[..n - 1];
    }
    FittingPrefix(s[..n], cap);
    assert s[..n][..n] == s[..n];
  }

  /** In particular sources up to half the buffer always fit: 255 characters in 513. */
  lemma ShortSourcesFit(s: string, cap: nat)
    requires cap >= 1 && 2 * |s| < cap
    ensures Kept(s, cap) == |s|
  {
    if s != [] {
      KeptAll(s, cap);
      EscapeLength(s[..|s| - 1]);
    }
  }

  lemma {:induction false} KeptBelowCap(s: string, cap: nat)
    requires cap >= 1
    ensures |Escape(s[..Kept(s, cap)])| < cap
  {
    if s == [] {
      assert s[..Kept(s, cap)] == [];
    } else {
      var n := |s| - 1;
      KeptBelowCap(s[..n], cap);
      FittingPrefix(s[..n], cap);
      var k := Kept(s, cap);
      if k <= n {
        assert s[..n][..k] == s[..k];
      } else {
        assert s[..k] == s && s[..n][..n] == s[..n];
        assert |EscapeChar(s[n])| <= 2;
      }
    }
  }

  /** Whatever the evidence, the emitted text decodes to a prefix of it, cleaned; to all of it
      when it has at most 255 characters; and to exactly that when those are printable. */
  lemma EvidenceRoundTrips(evidence: string)
    ensures var cap := 2 * MAX_EVIDENCE + 1;
            var kept := evidence[..Kept(evidence, cap)];
            && Decode(Escape(kept)) == Some(Clean(kept))
            && (|evidence| < MAX_EVIDENCE ==> kept == evidence)
            && (Printable(evidence) ==> Decode(Escape(kept)) == Some(kept))
  {
    var cap := 2 * MAX_EVIDENCE + 1;
    DecodeEscape(evidence[..Kept(evidence, cap)]);
    if Printable(evidence) {
      CleanIsIdentity(evidence[..Kept(evidence, cap)]);
    }
    if |evidence| < MAX_EVIDENCE {
      ShortSourcesFit(evidence, cap);
    }
  }

  // ---------- the request context ----------

  /** copy_field: strncpy of cap-1 bytes and a terminator; nothing at or past cap is touched. */
  method CopyField(dst: array<char>, src: Option<string>, cap: nat)
    requires 1 <= cap <= dst.Length
    requires src.Some? ==> NUL !in src.value
    modifies dst
    ensures CString(dst[..]) == FieldOf(src, cap)
    ensures forall k :: (if src.None? then 1 else cap) <= k < dst.Length ==> dst[k] == old(dst[k])
  {
    if src.None? {
      dst[0] := NUL;
      return;
    }
    var s := src.value;
    var n := if |s| < cap - 1 then |s| else cap - 1;
    for i := 0 to cap - 1
      invariant forall k :: 0 <= k < i && k < n ==> dst[k] == s[k]
      invariant forall k :: n <= k < i ==> dst[k] == NUL
      invariant forall k :: i <= k < dst.Length ==> dst[k] == old(dst[k])
    {
      dst[i] := if i < |s| then s[i] else NUL;
    }
    dst[cap - 1] := NUL;
    CStringIs(dst[..], s[..n]);
  }

  /** What the field holds afterwards. */
  function FieldOf(src: Option<string>, cap: nat): (f: string)
    requires cap >= 1
    ensures |f| < cap
  {
    if src.None? then []
    else if |src.value| < cap - 1 then src.value
    else src.value[..cap - 1]
  }

  /** The longest prefix of the source that leaves room for the terminator. */
  lemma FieldIsLongestPrefix(src: string, cap: nat, n: nat)
    requires n <= |src| && n + 1 <= cap
    ensures FieldOf(Some(src), cap) <= src && n <= |FieldOf(Some(src), cap)|
  {
  }

  lemma {:induction false} CStringIs(buffer: seq<char>, s: string)
    requires |s| < |buffer| && NUL !in s
    requires (forall k :: 0 <= k < |s| ==> buffer[k] == s[k]) && buffer[|s|] == NUL
    ensures CString(buffer) == s
  {
    if s != [] {
      assert s[0] in s;
      assert forall c :: c in s[1..] ==> c in s;
      CStringIs(buffer[1..], s[1..]);
    }
  }

  // ---------- the verdict line ----------

  datatype Severity = SevNone | Low | Medium | High | Critical
  datatype Category = CatNone | Rce | Lfi | Webshell | Ssrf | Sqli | DbUnauth | Anomaly
  datatype Action = Observe | BlockIt | Kill

  function SeverityName(s: Severity): (n: string)
    ensures |n| <= 8
  {
    match s
    case Critical => "critical"
    case High => "high"
    case Medium => "medium"
    case Low => "low"
    case SevNone => "none"
  }

  function CategoryName(c: Category): (n: string)
    ensures |n| <= 9
  {
    match c
    case Rce => "rce"
    case Lfi => "lfi"
    case Webshell => "webshell"
    case Ssrf => "ssrf"
    case Sqli => "sqli"
    case DbUnauth => "db_unauth"
    case Anomaly => "anomaly"
    case CatNone => "none"
  }

  function ActionName(a: Action): (n: string)
    ensures |n| <= 8
  {
    match a
    case BlockIt => "blocked"
    case Kill => "killed"
    case Observe => "observed"
  }

  /** parseSeverity of the trust engine, on the agent's scale. */
  function ParseSeverity(name: string): Severity {
    if name == "critical" then Critical
    else if name == "high" then High
    else if name == "medium" then Medium
    else if name == "low" then Low
    else SevNone
  }

  /** A severity survives the socket: what the agent names, the trust engine reads. */
  lemma SeverityCrossesSocket(s: Severity)
    ensures ParseSeverity(SeverityName(s)) == s
  {
    assert |"critical"| == 8 && |"high"| == 4 && |"medium"| == 6 && |"low"| == 3 && |"none"| == 4;
    assert "none"[0] == 'n' && "high"[0] == 'h';
  }

  /** A key with its value in quotes. */
  function Field(key: string, value: string): (f: string)
    ensures |f| == |key| + |value| + 5
  {
    "\"" + key + "\":\"" + value + "\""
  }

  function Printed(fields: seq<string>): string {
    if fields == [] then []
    else if |fields| == 1 then fields[0]
    else fields[0] + "," + Printed(fields[1..])
  }

  lemma PrintedCons(field: string, rest: seq<string>)
    requires rest != []
    ensures Printed([field] + rest) == field + "," + Printed(rest)
    ensures |Printed([field] + rest)| == |field| + 1 + |Printed(rest)|
  {
    assert ([field] + rest)[1..] == rest;
  }

  predicate StandsAt(text: string, part: string, i: int) {
    0 <= i <= |text| - |part| && text[i..i + |part|] == part
  }

  ghost predicate Contains(text: string, part: string) {
    exists i :: StandsAt(text, part, i)
  }

  lemma ContainsMiddle(before: string, part: string, after: string)
    ensures Contains(before + part + after, part)
  {
    var text := before + part + after;
    assert StandsAt(text, part, |before|);
  }

  lemma ContainsMore(before: string, text: string, after: string, part: string)
    requires Contains(text, part)
    ensures Contains(before + text + after, part)
  {
    var i :| StandsAt(text, part, i);
    var all := before + text + after;
    assert all[|before| + i..|before| + i + |part|] == text[i..i + |part|];
    assert StandsAt(all, part, |before| + i);
  }

  lemma {:induction false} PrintsEach(fields: seq<string>, i: nat)
    requires i < |fields|
    ensures Contains(Printed(fields), fields[i])
  {
    if |fields| == 1 {
      ContainsMiddle("", fields[0], "");
      assert "" + fields[0] + "" == fields[0];
    } else {
      var rest := Printed(fields[1..]);
      assert "" + fields[0] + ("," + rest) == Printed(fields);
      assert (fields[0] + ",") + rest + "" == Printed(fields);
      if i == 0 {
        ContainsMiddle("", fields[0], "," + rest);
      } else {
        PrintsEach(fields[1..], i - 1);
        ContainsMore(fields[0] + ",", rest, "", fields[i]);
      }
    }
  }

  /** The eight fields of a verdict; only the time is a bare number. */
  function Fields(requestID: string, ip: string, user: string, timestamp: string,
                  c: Category, s: Severity, a: Action, evidence: string): (fields: seq<string>)
    ensures |fields| == 8
  {
    [Field("request_id", requestID)] + ([Field("ip", ip)] + ([Field("user_id", user)] + (["\"timestamp\":" + timestamp]
    + ([Field("category", CategoryName(c))] + ([Field("severity", SeverityName(s))] + ([Field("action", ActionName(a))]
    + [Field("evidence", evidence)]))))))
  }

  /** The text snprintf would produce with room to spare. */
  function VerdictLine(requestID: string, ip: string, user: string, timestamp: string,
                       c: Category, s: Severity, a: Action, evidence: string): string
  {
    "{" + Printed(Fields(requestID, ip, user, timestamp, c, s, a, evidence)) + "}\n"
  }

  /** Each of the eight fields stands in the line, key and value. */
  lemma EveryFieldIsPrinted(requestID: string, ip: string, user: string, timestamp: string,
                            c: Category, s: Severity, a: Action, evidence: string)
    ensures var line := VerdictLine(requestID, ip, user, timestamp, c, s, a, evidence);
            && Contains(line, Field("request_id", requestID)) && Contains(line, Field("ip", ip))
            && Contains(line, Field("user_id", user)) && Contains(line, "\"timestamp\":" + timestamp)
            && Contains(line, Field("category", CategoryName(c))) && Contains(line, Field("severity", SeverityName(s)))
            && Contains(line, Field("action", ActionName(a))) && Contains(line, Field("evidence", evidence))
  {
    var fields := Fields(requestID, ip, user, timestamp, c, s, a, evidence);
    forall i | 0 <= i < 8
      ensures Contains("{" + Printed(fields) + "}\n", fields[i])
    {
      PrintsEach(fields, i);
      ContainsMore("{", Printed(fields), "}\n", fields[i]);
    }
    assert fields[0] == Field("request_id", requestID) && fields[1] == Field("ip", ip);
    assert fields[2] == Field("user_id", user) && fields[3] == "\"timestamp\":" + timestamp;
    assert fields[4] == Field("category", CategoryName(c)) && fields[5] == Field("severity", SeverityName(s));
    assert fields[6] == Field("action", ActionName(a)) && fields[7] == Field("evidence", evidence);
  }

  /** The line's length is that of its parts and of 106 characters around them. */
  lemma LineLength(requestID: string, ip: string, user: string, timestamp: string,
                   c: Category, s: Severity, a: Action, evidence: string)
    ensures |VerdictLine(requestID, ip, user, timestamp, c, s, a, evidence)|
            == 106 + |requestID| + |ip| + |user| + |timestamp| + |CategoryName(c)| + |SeverityName(s)| + |ActionName(a)|
               + |evidence|
  {
    var f7 := [Field("evidence", evidence)];
    var f6 := [Field("action", ActionName(a))] + f7;
    var f5 := [Field("severity", SeverityName(s))] + f6;
    var f4 := [Field("category", CategoryName(c))] + f5;
    var f3 := ["\"timestamp\":" + timestamp] + f4;
    var f2 := [Field("user_id", user)] + f3;
    var f1 := [Field("ip", ip)] + f2;
    PrintedCons(Field("request_id", requestID), f1);
    PrintedCons(Field("ip", ip), f2);
    PrintedCons(Field("user_id", user), f3);
    PrintedCons("\"timestamp\":" + timestamp, f4);
    PrintedCons(Field("category", CategoryName(c)), f5);
    PrintedCons(Field("severity", SeverityName(s)), f6);
    PrintedCons(Field("action", ActionName(a)), f7);
    assert |Printed(f7)| == |evidence| + 13;
  }

  /** For every request context, every evidence and every 64-bit time (at most 20 digits and
      sign), the line is shorter than its buffer, so snprintf never truncates it. */
  lemma LineNeverTruncated(requestID: Option<string>, ip: Option<string>, user: Option<string>, timestamp: string,
                           c: Category, s: Severity, a: Action, evidence: string)
    requires |timestamp| <= 20
    ensures |VerdictLine(FieldOf(requestID, MAX_REQID), FieldOf(ip, MAX_IP), FieldOf(user, MAX_USER), timestamp,
                         c, s, a, Escape(evidence[..Kept(evidence, 2 * MAX_EVIDENCE + 1)]))| < LINE_CAP
  {
    KeptBelowCap(evidence, 2 * MAX_EVIDENCE + 1);
    LineLength(FieldOf(requestID, MAX_REQID), FieldOf(ip, MAX_IP), FieldOf(user, MAX_USER), timestamp,
               c, s, a, Escape(evidence[..Kept(evidence, 2 * MAX_EVIDENCE + 1)]));
  }
}
