/** Portspec strings, "port:weight" entries between commas: how the scanner's `sscanf` and `strstr` loop reads one,
    how the table compiler's `split` and `int` do, and that both read back what was printed. */
module PortSpec {
  import opened Bytes

  /** An entry of a portspec as it is read: a port and its weight. */
  datatype Weighted = Weighted(port: int, points: int)

  predicate Digit(c: char) { '0' <= c <= '9' }

  predicate Space(c: char) { c == ' ' || c == '\t' || c == '\n' || c == '\r' || c == '\U{000B}' || c == '\U{000C}' }

  // ----- scanning

  /** What `%d` finds: the end of the input, something else, or a number and what follows it. */
  datatype Scan = End | Other | Number(value: int, rest: string)

  function SkipSpace(s: string): string {
    if s != "" && Space(s[0]) then SkipSpace(s[1..]) else s
  }

  function ScanDigits(s: string, acc: nat): (nat, string) {
    if s != "" && Digit(s[0]) then ScanDigits(s[1..], acc * 10 + (s[0] - '0') as nat) else (acc, s)
  }

  function ScanInt(s: string): Scan {
    var t := SkipSpace(s);
    if t == "" then End
    else
      var u := if t[0] == '-' || t[0] == '+' then t[1..] else t;
      if u == "" || !Digit(u[0]) then Other
      else
        var (n, rest) := ScanDigits(u, 0);
        Number(if t[0] == '-' then 0 - n else n, rest)
  }

  /** One entry, `%d:%d` with one point where no weight is found; none if there is not even a port. At the end of
      the input `sscanf` reports neither, and the port is the one before. */
  function ScanEntry(spec: string, port: int): Option<Weighted> {
    match ScanInt(spec)
    case Other => None
    case End => Some(Weighted(port, 1))
    case Number(p, rest) =>
      if rest != "" && rest[0] == ':'
      then (match ScanInt(rest[1..]) case Number(w, _) => Some(Weighted(p, w)) case _ => Some(Weighted(p, 1)))
      else Some(Weighted(p, 1))
  }

  /** What follows the first comma. */
  function AfterComma(s: string): Option<string> {
    if s == "" then None else if s[0] == ',' then Some(s[1..]) else AfterComma(s[1..])
  }

  lemma {:induction false} AfterCommaShorter(s: string)
    ensures AfterComma(s).Some? ==> |AfterComma(s).value| < |s|
  {
    if s != "" && s[0] != ',' {
      AfterCommaShorter(s[1..]);
    }
  }

  /** The entries of a portspec, in order, as both passes of the scanner find them. */
  function Parse(spec: string, port: int): seq<Weighted>
    decreases |spec|
  {
    AfterCommaShorter(spec);
    match ScanEntry(spec, port)
    case None => []
    case Some(e) =>
      [e] + match AfterComma(spec) { case None => [] case Some(rest) => Parse(rest, e.port) }
  }

  // ----- printing

  datatype Entry = Entry(port: nat, weight: Option<nat>)

  function PrintNat(n: nat): string {
    if n < 10 then [('0' as int + n) as char] else PrintNat(n / 10) + [('0' as int + n % 10) as char]
  }

  function PrintEntry(e: Entry): string {
    PrintNat(e.port) + match e.weight { case None => "" case Some(w) => ":" + PrintNat(w) }
  }

  function Print(es: seq<Entry>): string {
    if es == [] then ""
    else if |es| == 1 then PrintEntry(es[0])
    else PrintEntry(es[0]) + "," + Print(es[1..])
  }

  function WeightOf(e: Entry): nat { if e.weight.Some? then e.weight.value else 1 }

  function Meaning(es: seq<Entry>): seq<Weighted> {
    seq(|es|, i requires 0 <= i < |es| => Weighted(es[i].port, WeightOf(es[i])))
  }

  // ----- round trip

  predicate AllDigits(s: string) { forall i :: 0 <= i < |s| ==> Digit(s[i]) }

  lemma {:induction false} PrintNatDigits(n: nat)
    ensures PrintNat(n) != "" && AllDigits(PrintNat(n))
  {
    if n >= 10 {
      PrintNatDigits(n / 10);
    }
  }

  lemma {:induction false} ScanOn(a: string, rest: string, acc: nat)
    requires AllDigits(a)
    ensures ScanDigits(a + rest, acc) == ScanDigits(rest, ScanDigits(a, acc).0)
  {
    if a == "" {
      assert a + rest == rest;
    } else {
      assert (a + rest)[1..] == a[1..] + rest;
      ScanOn(a[1..], rest, acc * 10 + (a[0] - '0') as nat);
    }
  }

  lemma {:induction false} ScanPrinted(n: nat)
    ensures ScanDigits(PrintNat(n), 0) == (n, "")
  {
    if n < 10 {
      assert PrintNat(n)[1..] == "";
    } else {
      var last := [('0' as int + n % 10) as char];
      PrintNatDigits(n / 10);
      ScanPrinted(n / 10);
      ScanOn(PrintNat(n / 10), last, 0);
      assert last[1..] == "";
    }
  }

  /** A printed number is scanned whole, whatever other than a digit follows. */
  lemma NumberRead(n: nat, rest: string)
    requires rest == "" || !Digit(rest[0])
    ensures ScanInt(PrintNat(n) + rest) == Number(n, rest)
  {
    PrintNatDigits(n);
    ScanPrinted(n);
    ScanOn(PrintNat(n), rest, 0);
    var s := PrintNat(n) + rest;
    assert s[0] == PrintNat(n)[0];
    assert SkipSpace(s) == s;
  }

  lemma EntryRead(e: Entry, rest: string, port: int)
    requires rest == "" || rest[0] == ','
    ensures ScanEntry(PrintEntry(e) + rest, port) == Some(Meaning([e])[0])
  {
    hide ScanInt, PrintNat;
    match e.weight
    case None =>
      NumberRead(e.port, rest);
      assert PrintEntry(e) + rest == PrintNat(e.port) + rest;
    case Some(w) =>
      var tail := ":" + PrintNat(w) + rest;
      assert PrintEntry(e) + rest == PrintNat(e.port) + tail;
      NumberRead(e.port, tail);
      NumberRead(w, rest);
      assert tail[1..] == PrintNat(w) + rest;
  }

  lemma {:induction false} CommaFound(a: string, rest: string)
    requires Without(a, ',')
    ensures AfterComma(a + rest) == AfterComma(rest)
  {
    if a == "" {
      assert a + rest == rest;
    } else {
      assert (a + rest)[1..] == a[1..] + rest;
      CommaFound(a[1..], rest);
    }
  }

  lemma EntryNoComma(e: Entry)
    ensures Without(PrintEntry(e), ',')
  {
    PrintNatDigits(e.port);
    if e.weight.Some? {
      PrintNatDigits(e.weight.value);
    }
  }

  /** The scanner reads a printed portspec back, entry by entry. */
  lemma {:induction false} PortspecReads(es: seq<Entry>, port: int)
    requires es != []
    ensures Parse(Print(es), port) == Meaning(es)
    decreases |es|
  {
    hide ScanEntry, PrintEntry;
    var e := es[0];
    EntryNoComma(e);
    if |es| == 1 {
      assert PrintEntry(e) + "" == PrintEntry(e);
      EntryRead(e, "", port);
      CommaFound(PrintEntry(e), "");
      assert [Meaning([e])[0]] + [] == Meaning(es);
    } else {
      var rest := Print(es[1..]);
      assert Print(es) == PrintEntry(e) + ("," + rest);
      EntryRead(e, "," + rest, port);
      CommaFound(PrintEntry(e), "," + rest);
      assert ("," + rest)[1..] == rest;
      PortspecReads(es[1..], e.port);
      assert Meaning(es) == [Meaning([e])[0]] + Meaning(es[1..]);
    }
  }

  /** The port before matters only to a portspec that is blank, which is one entry for that port. */
  lemma ParseAgain(spec: string, port: int)
    ensures var es := Parse(spec, port);
      es != [] ==> Parse(spec, es[|es| - 1].port) == es
  {
    AfterCommaShorter(spec);
    if ScanInt(spec).End? {
      BlankNoComma(spec);
    }
  }

  lemma {:induction false} BlankNoComma(spec: string)
    requires SkipSpace(spec) == ""
    ensures AfterComma(spec).None?
  {
    if spec != "" {
      BlankNoComma(spec[1..]);
    }
  }

  // ----- the table compiler's reader

  /** `spec.split(c)`: the parts between separators, at least one. */
  function Split(spec: string, c: char): (r: seq<string>)
    ensures r != []
  {
    if spec == "" then [""]
    else
      var rest := Split(spec[1..], c);
      if spec[0] == c then [""] + rest else [[spec[0]] + rest[0]] + rest[1..]
  }

  predicate PySpace(c: char) { Space(c) || '\U{001C}' <= c <= '\U{001F}' }

  function StripLeft(s: string): string {
    if s != "" && PySpace(s[0]) then StripLeft(s[1..]) else s
  }

  function StripRight(s: string): string {
    if s != "" && PySpace(s[|s| - 1]) then StripRight(s[..|s| - 1]) else s
  }

  /** The digits of a number, where single underscores may stand between two of them. */
  function PyDigits(s: string, acc: nat): Option<nat> {
    if s == "" then Some(acc)
    else if Digit(s[0]) then PyDigits(s[1..], acc * 10 + (s[0] - '0') as nat)
    else if s[0] == '_' && |s| >= 2 && Digit(s[1]) then PyDigits(s[2..], acc * 10 + (s[1] - '0') as nat)
    else None
  }

  /** `int(s)`; none for its exception. */
  function PyInt(s: string): Option<int> {
    var t := StripRight(StripLeft(s));
    var u := if t != "" && (t[0] == '-' || t[0] == '+') then t[1..] else t;
    if u == "" || !Digit(u[0]) then None
    else
      match PyDigits(u, 0)
      case None => None
      case Some(n) => Some(if t[0] == '-' then 0 - n else n)
  }

  /** One part: a port and a weight, or a port alone; none for an exception. */
  function PyEntry(part: string): Option<Weighted> {
    if ':' in part then
      var fields := Split(part, ':');
      if |fields| != 2 then None
      else
        match (PyInt(fields[0]), PyInt(fields[1]))
        case (Some(p), Some(w)) => Some(Weighted(p, w))
        case _ => None
    else
      match PyInt(part)
      case Some(p) => Some(Weighted(p, 1))
      case None => None
  }

  function PyEntries(parts: seq<string>): Option<seq<Weighted>> {
    if parts == [] then Some([])
    else
      match (PyEntry(parts[0]), PyEntries(parts[1..]))
      case (Some(e), Some(es)) => Some([e] + es)
      case _ => None
  }

  /** The entries of a portspec as the table compiler finds them; port 80 when the portspec is empty. */
  function PyParse(spec: string): Option<seq<Weighted>> {
    PyEntries(if spec == "" then ["80"] else Split(spec, ','))
  }

  predicate Without(s: string, c: char) { forall i :: 0 <= i < |s| ==> s[i] != c }

  lemma {:induction false} SplitNone(s: string, c: char)
    requires Without(s, c)
    ensures Split(s, c) == [s]
  {
    if s != "" {
      SplitNone(s[1..], c);
      assert [s[0]] + s[1..] == s;
    }
  }

  lemma {:induction false} SplitFirst(s: string, c: char, rest: string)
    requires Without(s, c)
    ensures Split(s + [c] + rest, c) == [s] + Split(rest, c)
  {
    var all := s + [c] + rest;
    if s == "" {
      assert all[1..] == rest;
    } else {
      SplitFirst(s[1..], c, rest);
      assert all[1..] == s[1..] + [c] + rest;
      assert [s[0]] + s[1..] == s;
    }
  }

  lemma {:induction false} PyDigitsScan(s: string, acc: nat)
    requires AllDigits(s)
    ensures PyDigits(s, acc) == Some(ScanDigits(s, acc).0)
  {
    if s != "" {
      PyDigitsScan(s[1..], acc * 10 + (s[0] - '0') as nat);
    }
  }

  lemma PyNumberRead(n: nat)
    ensures PyInt(PrintNat(n)) == Some(n)
  {
    PrintNatDigits(n);
    ScanPrinted(n);
    PyDigitsScan(PrintNat(n), 0);
    var s := PrintNat(n);
    assert StripLeft(s) == s && StripRight(s) == s;
  }

  predicate Blank(s: string) { forall i :: 0 <= i < |s| ==> Space(s[i]) }

  predicate PyBlank(s: string) { forall i :: 0 <= i < |s| ==> PySpace(s[i]) }

  lemma {:induction false} SpacesSkipped(lead: string, s: string)
    requires s != "" && !PySpace(s[0])
    ensures Blank(lead) ==> SkipSpace(lead + s) == s
    ensures PyBlank(lead) ==> StripLeft(lead + s) == s
  {
    if lead == "" {
      assert lead + s == s;
    } else {
      assert (lead + s)[1..] == lead[1..] + s;
      SpacesSkipped(lead[1..], s);
    }
  }

  lemma {:induction false} SpacesStripped(s: string, trail: string)
    requires s != "" && !PySpace(s[|s| - 1]) && PyBlank(trail)
    ensures StripRight(s + trail) == s
    decreases |trail|
  {
    if trail == "" {
      assert s + trail == s;
    } else {
      var n := |trail| - 1;
      assert (s + trail)[..|s| + n] == s + trail[..n];
      SpacesStripped(s, trail[..n]);
    }
  }

  function SignedInt(sign: string, n: nat): int { if sign == "-" then 0 - n else n }

  /** Behind white space the scanner takes a number, with a sign or without, up to what is no digit. */
  lemma ScanSigned(lead: string, sign: string, n: nat, behind: string)
    requires Blank(lead) && sign in {"", "-", "+"} && (behind == "" || !Digit(behind[0]))
    ensures ScanInt(lead + (sign + PrintNat(n) + behind)) == Number(SignedInt(sign, n), behind)
  {
    var u := PrintNat(n);
    PrintNatDigits(n);
    ScanPrinted(n);
    ScanOn(u, behind, 0);
    hide PrintNat, ScanDigits, SkipSpace;
    var t := sign + u + behind;
    assert t[|sign|..] == u + behind;
    assert t[0] == if sign == "" then u[0] else sign[0];
    SpacesSkipped(lead, t);
  }

  /** The compiler takes it with white space on both sides. */
  lemma PySigned(lead: string, sign: string, n: nat, trail: string)
    requires PyBlank(lead) && PyBlank(trail) && sign in {"", "-", "+"}
    ensures PyInt(lead + (sign + PrintNat(n) + trail)) == Some(SignedInt(sign, n))
  {
    var u := PrintNat(n);
    PrintNatDigits(n);
    ScanPrinted(n);
    PyDigitsScan(u, 0);
    hide PrintNat, PyDigits, ScanDigits, StripLeft, StripRight;
    var t := sign + u;
    assert t[|sign|..] == u;
    assert t[0] == if sign == "" then u[0] else sign[0];
    assert t[|t| - 1] == u[|u| - 1];
    SpacesSkipped(lead, t + trail);
    SpacesStripped(t, trail);
  }

  lemma PrintedWithout(n: nat, c: char)
    requires !Digit(c)
    ensures Without(PrintNat(n), c)
  {
    PrintNatDigits(n);
  }

  lemma PyEntryRead(e: Entry)
    ensures PyEntry(PrintEntry(e)) == Some(Meaning([e])[0])
  {
    hide PyInt, PrintNat, Split;
    PyNumberRead(e.port);
    PrintedWithout(e.port, ':');
    match e.weight
    case None =>
      assert PrintEntry(e) == PrintNat(e.port);
    case Some(w) =>
      PyNumberRead(w);
      PrintedWithout(w, ':');
      assert PrintEntry(e) == PrintNat(e.port) + [':'] + PrintNat(w);
      assert PrintEntry(e)[|PrintNat(e.port)|] == ':';
      SplitFirst(PrintNat(e.port), ':', PrintNat(w));
      SplitNone(PrintNat(w), ':');
  }

  lemma {:induction false} PartsRead(es: seq<Entry>)
    requires es != []
    ensures PyEntries(Split(Print(es), ',')) == Some(Meaning(es))
    decreases |es|
  {
    hide PyEntry, PrintEntry, Split;
    var e := es[0];
    PyEntryRead(e);
    EntryNoComma(e);
    if |es| == 1 {
      SplitNone(PrintEntry(e), ',');
      assert [PrintEntry(e)][1..] == [];
      assert [Meaning([e])[0]] + [] == Meaning(es);
    } else {
      var rest := Print(es[1..]);
      assert Print(es) == PrintEntry(e) + [','] + rest;
      SplitFirst(PrintEntry(e), ',', rest);
      assert ([PrintEntry(e)] + Split(rest, ','))[1..] == Split(rest, ',');
      PartsRead(es[1..]);
      assert Meaning(es) == [Meaning([e])[0]] + Meaning(es[1..]);
    }
  }

  /** The table compiler reads a printed portspec back, entry by entry, as the scanner does. */
  lemma BothRead(es: seq<Entry>, port: int)
    requires es != []
    ensures PyParse(Print(es)) == Some(Meaning(es)) && Parse(Print(es), port) == Meaning(es)
  {
    PartsRead(es);
    PortspecReads(es, port);
    PrintNatDigits(es[0].port);
  }

  /** They part on what was not printed: a comma at the end repeats the port for the scanner and is an error for the
      compiler. */
  lemma CommaAtEnd(port: int)
    ensures Parse("80,", port) == [Weighted(80, 1), Weighted(80, 1)] && PyParse("80,") == None
  {
    var e := Entry(80, None);
    assert PrintEntry(e) == "80" by {
      assert PrintNat(8) == "8";
      assert PrintNat(80) == PrintNat(8) + "0";
    }
    hide PrintNat;
    EntryRead(e, ",", port);
    assert "80" + "," == "80,";
    EntryNoComma(e);
    CommaFound("80", ",");
    assert ","[1..] == "";
    assert Parse("", 80) == [Weighted(80, 1)] + [];
    assert Parse("80,", port) == [Weighted(80, 1)] + Parse("", 80);
    SplitFirst("80", ',', "");
    assert "80" + [','] + "" == "80,";
    assert ["80"] + [""] == ["80", ""] && ["80", ""][1..] == [""];
    assert PyEntry("") == None;
  }
}
