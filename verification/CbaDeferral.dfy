/** The deferral buffer: which strings can be held back without writing outside it. */
module CbaDeferral {
  import opened Bytes
  import opened CbaFormat
  import opened CbaCalls

  /** The length given to a deferred string of `n` characters: an `unsigned short`, cut to the room left. */
  function DeferLength(used: nat, code: uint32, n: nat): nat {
    if n > Room(used, code) then Room(used, code) % 0x1_0000 else n
  }

  /** The places of the deferral buffer that deferring a string of `n` characters writes to: the header, the end of
      the text, which is marked first, the length, and the text. */
  predicate DeferWrites(used: nat, code: uint32, n: nat, i: int) {
    var at, length := used + 1 + HeaderLen(code), DeferLength(used, code, n);
    || used <= i < at
    || i == at + length - 1
    || at <= i < at + 2
    || at + 2 <= i < at + 2 + length
  }

  /** Deferring writes inside the buffer only. */
  ghost predicate StaysInside(used: nat, code: uint32, n: nat) {
    forall i :: DeferWrites(used, code, n, i) ==> 0 <= i < CBA_DEFERBUFF
  }

  /** A string, however short, is deferred inside the buffer if and only if there is room for one of length zero: the
      room left, when negative, becomes a length of nearly 2^16. */
  lemma InsideExactly(used: nat, code: uint32, n: nat)
    requires used <= CBA_DEFERBUFF
    ensures StaysInside(used, code, n) <==> Room(used, code) >= 0
    ensures Room(used, code) < 0 ==> DeferLength(used, code, n) > 0x1_0000 - 0x10
  {
    if Room(used, code) < 0 {
      var last := used + 1 + HeaderLen(code) + 2 + DeferLength(used, code, n) - 1;
      assert DeferWrites(used, code, n, last);
    }
  }

  // ----- whole rows of deferred strings

  /** Deferring these strings, each with its code. */
  function Deferring(strs: seq<(int32, seq<byte>)>): seq<Call> {
    if strs == [] then [] else [CallCode(strs[0].0), CallDeferStr(strs[0].1)] + Deferring(strs[1..])
  }

  /** The space the strings take when they are not cut. */
  function SpaceOf(strs: seq<(int32, seq<byte>)>): nat {
    if strs == [] then 0
    else 1 + HeaderLen(CodeOf(strs[0].0)) + 2 + |Formatted(strs[0].1)| + SpaceOf(strs[1..])
  }

  lemma DeferOne(pen: Pen, c: int32, text: seq<byte>)
    requires pen.deferred != []
    ensures var code, used := CodeOf(c), BufferLen(pen.deferred);
      var pen' := Step(Step(pen, CallCode(c)).0, CallDeferStr(text)).0;
      && pen'.deferred != []
      && BufferLen(pen'.deferred) == used + 1 + HeaderLen(code) + 2 + |DeferredText(used, code, text)|
  {
    hide Formatted;
    var code, used := CodeOf(c), BufferLen(pen.deferred);
    var p := Str(code, DeferredText(used, code, text));
    var held := pen.deferred + [p];
    assert held[..|held| - 1] == pen.deferred && held[|held| - 1] == p;
    assert FrameLen(p) == 1 + HeaderLen(code) + 2 + |p.text|;
  }

  lemma RoomyFirst(pen: Pen, c: int32, text: seq<byte>, rest: seq<Call>)
    ensures var pen' := pen.(code := CodeOf(c));
      AllRoomy(pen, [CallCode(c), CallDeferStr(text)] + rest) <==>
        Roomy(pen', CallDeferStr(text)) && AllRoomy(Step(pen', CallDeferStr(text)).0, rest)
  {
    hide Step;
    var calls := [CallCode(c), CallDeferStr(text)] + rest;
    assert calls[1..] == [CallDeferStr(text)] + rest && calls[1..][1..] == rest;
    assert Step(pen, CallCode(c)).0 == pen.(code := CodeOf(c)) by { CodeStep(pen, c); }
  }

  lemma CodeStep(pen: Pen, c: int32)
    ensures Step(pen, CallCode(c)) == (pen.(code := CodeOf(c)), [])
  {
  }

  /** A row of strings behind a head stays inside the buffer if and only if all but the last fit in whole and leave
      room for the last one's header. */
  lemma {:induction false} RowInsideExactly(pen: Pen, strs: seq<(int32, seq<byte>)>)
    requires pen.deferred != []
    ensures AllRoomy(pen, Deferring(strs)) <==>
      strs == []
      || BufferLen(pen.deferred) + SpaceOf(strs[..|strs| - 1])
         + 1 + HeaderLen(CodeOf(strs[|strs| - 1].0)) + 7 <= CBA_DEFERBUFF
    decreases |strs|
  {
    hide Step, Formatted;
    if strs != [] {
      var (c, text) := strs[0];
      var pen' := Step(pen.(code := CodeOf(c)), CallDeferStr(text)).0;
      RoomyFirst(pen, c, text, Deferring(strs[1..]));
      CodeStep(pen, c);
      DeferOne(pen, c, text);
      RowInsideExactly(pen', strs[1..]);
      if |strs| > 1 {
        assert strs[..|strs| - 1][1..] == strs[1..][..|strs| - 2];
        assert strs[..|strs| - 1][0] == strs[0];
      }
    }
  }

  /** For instance, behind a head without a name a string of 2036 characters or more fills the buffer so that any
      further one runs over its end by more than 60000 bytes. */
  lemma LongStringOverruns(text: seq<byte>, next: seq<byte>)
    requires NoNul(text) && |text| >= 2036
    ensures var pen := Step(Step(NEWPEN, CallHead([])).0, CallDeferStr(text)).0;
      && BufferLen(pen.deferred) == 2043 && Room(2043, 0) == -4
      && DeferLength(2043, 0, |Formatted(next)|) == 65532
      && !Roomy(pen, CallDeferStr(next)) && !StaysInside(2043, 0, |Formatted(next)|)
  {
    var head := Packet.Head(0, []);
    var pen := Pen(0, [head]);
    assert HeadName([]) == [];
    assert Step(NEWPEN, CallHead([])).0 == pen;
    assert [head][..0] == [];
    assert BufferLen([head]) == FrameLen(head) == 3;
    StringKept(3, 0, text);
    assert pen.(code := CodeOf(0)) == pen;
    DeferOne(pen, 0, text);
    CodeStep(pen, 0);
    InsideExactly(2043, 0, |Formatted(next)|);
  }
}
