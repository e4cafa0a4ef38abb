/** Portspecs that nobody printed: which of those the table compiler accepts the scanner reads the same way. */
module PortTexts {
  import opened Bytes
  import opened PortSpec

  // ----- one number

  /** White space in front is of a kind that both know. */
  predicate PlainFront(field: string) { StripLeft(field) == SkipSpace(field) }

  /** The number takes up the field to its end, with nothing between its digits. */
  predicate Tight(field: string) { '_' !in field && StripRight(field) == field }

  /** The scanner finds the number that the compiler does. */
  predicate SameNumber(field: string, n: int) { '_' !in field || n == 0 }

  lemma {:induction false} PyDigitsGrow(s: string, acc: nat)
    requires PyDigits(s, acc).Some?
    ensures PyDigits(s, acc).value >= acc
    decreases |s|
  {
    if s != "" {
      if Digit(s[0]) {
        PyDigitsGrow(s[1..], acc * 10 + (s[0] - '0') as nat);
      } else {
        PyDigitsGrow(s[2..], acc * 10 + (s[1] - '0') as nat);
      }
    }
  }

  /** The scanner's digits end at the first underscore. */
  lemma {:induction false} DigitsScanned(s: string, tail: string, acc: nat)
    requires PyDigits(s, acc).Some? && (tail == "" || !Digit(tail[0]))
    ensures var n, (v, rest) := PyDigits(s, acc).value, ScanDigits(s + tail, acc);
      && ('_' !in s ==> v == n && rest == tail)
      && ('_' in s ==> rest != "" && rest[0] == '_' && (v == n <==> n == 0))
    decreases |s|
  {
    if s == "" {
      assert s + tail == tail;
    } else {
      assert (s + tail)[1..] == s[1..] + tail;
      assert s == [s[0]] + s[1..];
      if Digit(s[0]) {
        DigitsScanned(s[1..], tail, acc * 10 + (s[0] - '0') as nat);
      } else {
        PyDigitsGrow(s[2..], acc * 10 + (s[1] - '0') as nat);
      }
    }
  }

  lemma {:induction false} FrontSplits(s: string) returns (lead: string)
    ensures s == lead + StripLeft(s) && (forall i :: 0 <= i < |lead| ==> PySpace(lead[i]))
    ensures StripLeft(s) == "" || !PySpace(StripLeft(s)[0])
  {
    if s != "" && PySpace(s[0]) {
      lead := FrontSplits(s[1..]);
      assert s == [s[0]] + s[1..];
      lead := [s[0]] + lead;
    } else {
      lead := "";
    }
  }

  lemma {:induction false} BackSplits(s: string) returns (trail: string)
    ensures s == StripRight(s) + trail && (forall i :: 0 <= i < |trail| ==> PySpace(trail[i]))
    ensures StripRight(s) == "" || !PySpace(StripRight(s)[|StripRight(s)| - 1])
  {
    if s != "" && PySpace(s[|s| - 1]) {
      trail := BackSplits(s[..|s| - 1]);
      assert s == s[..|s| - 1] + [s[|s| - 1]];
      trail := trail + [s[|s| - 1]];
    } else {
      trail := "";
    }
  }

  /** Behind white space both know, the scanner is at the number; otherwise at something that is none. */
  lemma {:induction false} SpaceSkipped(s: string, tail: string)
    requires StripLeft(s) != ""
    ensures PlainFront(s) ==> SkipSpace(s + tail) == StripLeft(s) + tail
    ensures !PlainFront(s) ==>
      var t := SkipSpace(s + tail); t != "" && PySpace(t[0]) && !Space(t[0])
    decreases |s|
  {
    if Space(s[0]) {
      assert (s + tail)[1..] == s[1..] + tail;
      SpaceSkipped(s[1..], tail);
    } else {
      FrontSame(s);
    }
  }

  lemma FrontSame(s: string)
    requires s != "" && !Space(s[0])
    ensures SkipSpace(s) == s
    ensures PlainFront(s) <==> !PySpace(s[0])
  {
    if PySpace(s[0]) {
      var lead := FrontSplits(s[1..]);
      assert |StripLeft(s[1..])| < |s|;
    }
  }

  function SignOf(t: string): string { if t != "" && (t[0] == '-' || t[0] == '+') then [t[0]] else "" }

  /** A sign and digits, as the scanner finds them behind white space. */
  lemma CoreScanned(s: string, sign: string, u: string, behind: string)
    requires SkipSpace(s) == sign + u + behind && sign in {"", "-", "+"}
    requires u != "" && Digit(u[0]) && PyDigits(u, 0).Some? && (behind == "" || !Digit(behind[0]))
    ensures var n, r := (if sign == "-" then 0 - PyDigits(u, 0).value else PyDigits(u, 0).value), ScanInt(s);
      && r.Number?
      && (r.value == n <==> '_' !in u || n == 0)
      && ('_' !in u ==> r.rest == behind)
      && ('_' in u ==> r.rest != "" && r.rest[0] == '_')
  {
    hide PyDigits, ScanDigits, SkipSpace;
    var t := SkipSpace(s);
    assert t == sign + (u + behind);
    assert t[|sign|..] == u + behind;
    DigitsScanned(u, behind, 0);
  }

  /** The parts of a field the compiler accepts: white space, a sign, digits, white space. */
  lemma FieldParts(field: string) returns (lead: string, sign: string, u: string, trail: string)
    requires PyInt(field).Some?
    ensures field == lead + (sign + u + trail) && StripLeft(field) == sign + u + trail && sign in {"", "-", "+"}
    ensures u != "" && Digit(u[0]) && PyDigits(u, 0).Some?
    ensures PyInt(field).value == if sign == "-" then 0 - PyDigits(u, 0).value else PyDigits(u, 0).value
    ensures forall i :: 0 <= i < |lead| ==> PySpace(lead[i])
    ensures forall i :: 0 <= i < |trail| ==> PySpace(trail[i])
    ensures StripRight(sign + u + trail) == sign + u
  {
    hide PyDigits;
    var front := StripLeft(field);
    var t := StripRight(front);
    lead := FrontSplits(field);
    trail := BackSplits(front);
    sign := SignOf(t);
    u := t[|sign|..];
    assert t == sign + u;
  }

  lemma SpacesOnly(lead: string, sign: string, u: string, trail: string)
    requires sign in {"", "-", "+"}
    requires forall i :: 0 <= i < |lead| ==> PySpace(lead[i])
    requires forall i :: 0 <= i < |trail| ==> PySpace(trail[i])
    ensures '_' in lead + (sign + u + trail) <==> '_' in u
  {
  }

  /** A field the compiler accepts, as the scanner finds it. */
  lemma FieldScanned(field: string, n: int, tail: string)
    requires PyInt(field) == Some(n) && (tail == "" || tail[0] == ':' || tail[0] == ',')
    ensures !PlainFront(field) ==> ScanInt(field + tail) == Other
    ensures PlainFront(field) ==>
      var r := ScanInt(field + tail);
      && r.Number? && (r.value == n <==> SameNumber(field, n))
      && (Tight(field) ==> r.rest == tail)
      && (!Tight(field) ==> r.rest != "" && r.rest[0] != ':')
  {
    hide PyInt, ScanInt, PyDigits, StripLeft, StripRight, SkipSpace, PlainFront;
    var lead, sign, u, trail := FieldParts(field);
    SpaceSkipped(field, tail);
    if PlainFront(field) {
      assert sign + u + trail + tail == sign + u + (trail + tail);
      CoreScanned(field + tail, sign, u, trail + tail);
      SpacesOnly(lead, sign, u, trail);
      LastOfCore(sign, u, trail);
      TightExactly(field, lead, sign + u, trail);
    } else {
      OtherFound(field + tail);
    }
  }

  lemma OtherFound(s: string)
    requires var t := SkipSpace(s); t != "" && PySpace(t[0]) && !Space(t[0])
    ensures ScanInt(s) == Other
  {
  }

  lemma LastOfCore(sign: string, u: string, trail: string)
    requires u != "" && StripRight(sign + u + trail) == sign + u
    ensures var core := sign + u; core != "" && !PySpace(core[|core| - 1])
  {
    var t := BackSplits(sign + u + trail);
  }

  /** Nothing behind the digits. */
  lemma TightExactly(field: string, lead: string, core: string, trail: string)
    requires field == lead + (core + trail) && core != "" && !PySpace(core[|core| - 1])
    requires forall i :: 0 <= i < |trail| ==> PySpace(trail[i])
    ensures StripRight(field) == field <==> trail == ""
  {
    if trail == "" {
      assert field[|field| - 1] == core[|core| - 1];
    } else {
      assert field[|field| - 1] == trail[|trail| - 1];
      var rest := BackSplits(field[..|field| - 1]);
      assert |StripRight(field[..|field| - 1])| < |field|;
    }
  }

  // ----- one part

  /** The scanner reads the part as the compiler does. There is no weight for it unless the port takes up its field to
      the end, and none that it finds behind white space it does not know. */
  predicate Alike(part: string) {
    if ':' in part then
      var fields := Split(part, ':');
      if |fields| != 2 then false
      else
        match (PyInt(fields[0]), PyInt(fields[1]))
        case (Some(p), Some(w)) =>
          && PlainFront(fields[0]) && SameNumber(fields[0], p)
          && (if Tight(fields[0]) && PlainFront(fields[1]) then SameNumber(fields[1], w) else w == 1)
        case _ => false
    else
      match PyInt(part)
      case Some(p) => PlainFront(part) && SameNumber(part, p)
      case None => false
  }

  /** Splitting takes the text apart at the first separator, and so on. */
  lemma {:induction false} SplitShape(s: string, c: char) returns (rest: string)
    ensures var parts := Split(s, c);
      && Without(parts[0], c)
      && (|parts| == 1 ==> s == parts[0])
      && (|parts| > 1 ==> s == parts[0] + [c] + rest && Split(rest, c) == parts[1..])
  {
    if s == "" {
      rest := "";
    } else {
      assert s == [s[0]] + s[1..];
      rest := SplitShape(s[1..], c);
      if s[0] == c {
        rest := s[1..];
      }
    }
  }

  lemma PartScanned(part: string, e: Weighted, tail: string, port: int)
    requires PyEntry(part) == Some(e) && (tail == "" || tail[0] == ',')
    ensures ScanEntry(part + tail, port) == Some(e) <==> Alike(part)
  {
    hide PyInt, ScanInt, PlainFront, Tight, SameNumber, Split;
    if ':' in part {
      var fields := Split(part, ':');
      var rest := SplitShape(part, ':');
      var more := SplitShape(rest, ':');
      assert fields[1..][0] == fields[1];
      var a, b := fields[0], fields[1];
      assert part == a + ":" + b;
      assert part + tail == a + (":" + b + tail);
      FieldScanned(a, e.port, ":" + b + tail);
      FieldScanned(b, e.points, tail);
      assert (":" + b + tail)[1..] == b + tail;
    } else {
      FieldScanned(part, e.port, tail);
      if ScanInt(part + tail).Number? {
        NoColonLeft(part, tail);
      }
    }
  }

  /** Without a colon in the part the scanner finds none behind the number. */
  lemma NoColonLeft(part: string, tail: string)
    requires ':' !in part && (tail == "" || tail[0] == ',') && PyInt(part).Some? && ScanInt(part + tail).Number?
    ensures var rest := ScanInt(part + tail).rest; rest == "" || rest[0] != ':'
  {
    hide ScanInt, PyInt;
    FieldScanned(part, PyInt(part).value, tail);
  }

  // ----- the whole text

  predicate AllAlike(parts: seq<string>) {
    forall i :: 0 <= i < |parts| ==> Alike(parts[i])
  }

  lemma {:induction false} PartsAlike(spec: string, es: seq<Weighted>, port: int)
    requires PyEntries(Split(spec, ',')) == Some(es)
    ensures Parse(spec, port) == es <==> AllAlike(Split(spec, ','))
    decreases |spec|
  {
    hide PyEntry, ScanEntry, Alike, Split;
    var parts := Split(spec, ',');
    var rest := SplitShape(spec, ',');
    var e := PyEntry(parts[0]).value;
    var tail := if |parts| == 1 then "" else "," + rest;
    assert spec == parts[0] + tail;
    PartScanned(parts[0], e, tail, port);
    CommaFound(parts[0], tail);
    FirstAlike(parts);
    if |parts| == 1 {
      assert parts[1..] == [];
      assert es == [e] + [] == [e];
      ParseLast(spec, port);
    } else {
      assert tail[1..] == rest;
      assert AfterComma(tail) == Some(rest);
      PartsAlike(rest, es[1..], if ScanEntry(spec, port).Some? then ScanEntry(spec, port).value.port else port);
      assert es == [e] + es[1..];
      ParseFirst(spec, port, rest);
    }
  }

  lemma FirstAlike(parts: seq<string>)
    requires parts != []
    ensures AllAlike(parts) <==> Alike(parts[0]) && AllAlike(parts[1..])
  {
    hide Alike;
    assert forall i :: 0 < i < |parts| ==> parts[i] == parts[1..][i - 1];
  }

  lemma ParseFirst(spec: string, port: int, rest: string)
    requires AfterComma(spec) == Some(rest)
    ensures ScanEntry(spec, port).None? ==> Parse(spec, port) == []
    ensures ScanEntry(spec, port).Some? ==>
      var e := ScanEntry(spec, port).value; Parse(spec, port) == [e] + Parse(rest, e.port)
  {
    hide ScanEntry;
    AfterCommaShorter(spec);
  }

  lemma ParseLast(spec: string, port: int)
    requires AfterComma(spec) == None
    ensures Parse(spec, port) == match ScanEntry(spec, port) case None => [] case Some(e) => [e]
  {
    hide ScanEntry;
    AfterCommaShorter(spec);
  }

  /** A portspec the table compiler accepts is read alike by the scanner, whatever its variable for the port held
      before, if and only if every part of it is. The empty one stands for port 80 with the one and for whatever that
      variable held with the other. */
  lemma ReadAlikeExactly(spec: string, port: int)
    requires PyParse(spec).Some?
    ensures Parse(spec, port) == PyParse(spec).value <==>
      if spec == "" then port == 80 else AllAlike(Split(spec, ','))
  {
    hide ScanEntry, Alike, Split;
    if spec == "" {
      NothingToRead(port);
    } else {
      PartsAlike(spec, PyParse(spec).value, port);
    }
  }

  lemma NothingToRead(port: int)
    ensures Parse("", port) == [Weighted(port, 1)] && PyParse("") == Some([Weighted(80, 1)])
  {
    assert Parse("", port) == [Weighted(port, 1)] + [];
    EightyRead();
    assert ["80"][1..] == [];
    assert [Weighted(80, 1)] + [] == [Weighted(80, 1)];
  }

  lemma EightyRead()
    ensures PrintNat(80) == "80" && PyInt("80") == Some(80) && PyEntry("80") == Some(Weighted(80, 1))
  {
    var e := Entry(80, None);
    assert PrintNat(8) == "8";
    assert PrintNat(80) == PrintNat(8) + "0" == "80";
    PyNumberRead(80);
    PyEntryRead(e);
  }

  /** A text of one part. */
  lemma OnlyPart(spec: string, e: Weighted, scanned: Weighted, port: int)
    requires spec != "" && Without(spec, ',') && PyEntry(spec) == Some(e) && ScanEntry(spec, port) == Some(scanned)
    ensures PyParse(spec) == Some([e]) && Parse(spec, port) == [scanned]
  {
    hide PyEntry, ScanEntry;
    SplitNone(spec, ',');
    assert [spec][1..] == [];
    var none: seq<string> := [];
    assert PyEntries(none) == Some([]);
    assert PyEntries([spec]) == Some([e] + []);
    assert [e] + [] == [e];
    assert spec + "" == spec;
    CommaFound(spec, "");
    ParseLast(spec, port);
  }

  /** For instance "1_0" is port 10 for the compiler and port 1 for the scanner. */
  lemma Underscore(port: int)
    ensures PyParse("1_0") == Some([Weighted(10, 1)]) && Parse("1_0", port) == [Weighted(1, 1)]
  {
    var s := "1_0";
    assert s[1..] == "_0" && "_0"[2..] == "";
    assert PyDigits("_0", 1) == Some(10);
    assert PyDigits(s, 0) == Some(10);
    assert StripLeft(s) == s && StripRight(s) == s;
    assert PyInt(s) == Some(10);
    hide PyInt, ScanInt;
    assert PrintNat(1) == "1" && "1" + "_0" == s;
    NumberRead(1, "_0");
    OnlyPart(s, Weighted(10, 1), Weighted(1, 1), port);
  }

  lemma EightyAndSpace()
    ensures PyInt("80 ") == Some(80) && PyInt("2") == Some(2)
  {
    var a := "80 ";
    assert a[..2] == "80" && a[2] == ' ';
    assert StripLeft(a) == a && StripRight(a) == StripRight("80") == "80";
    assert StripLeft("80") == "80";
    EightyRead();
    assert PrintNat(2) == "2";
    PyNumberRead(2);
  }

  /** And in "80 :2" the scanner does not find the weight. */
  lemma SpaceBeforeColon(port: int)
    ensures PyParse("80 :2") == Some([Weighted(80, 2)]) && Parse("80 :2", port) == [Weighted(80, 1)]
  {
    hide PyInt, ScanInt, Split, PrintNat;
    var s, a, b := "80 :2", "80 ", "2";
    EightyAndSpace();
    EightyRead();
    SplitFirst(a, ':', b);
    SplitNone(b, ':');
    assert a + [':'] + b == s && s[3] == ':';
    assert [a] + [b] == [a, b];
    assert PyEntry(s) == Some(Weighted(80, 2));
    assert "80" + " :2" == s;
    NumberRead(80, " :2");
    OnlyPart(s, Weighted(80, 2), Weighted(80, 1), port);
  }
}
