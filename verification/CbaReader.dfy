/** The CBA reader: a cursor over the file and one mutable state per thread id. */
module CbaReader {
  import opened Sequences
  import opened Bytes
  import opened CbaFormat
  import opened CbaDecode

  class ThreadState {
    var name: seq<byte>
    var dict: map<uint32, Value>
    var events: seq<Event>
    var curCode: uint32
    var curKind: byte
    var stream: Stream
    ghost const owner: byte  // the thread id it is kept for

    function Value(): State
      reads this
    {
      State(name, dict, events, curCode, curKind, stream)
    }

    constructor (ghost tid: byte)
      ensures Value() == FRESH && owner == tid
    {
      owner := tid;
      name, dict, events := [], map[], [];
      curCode, curKind, stream := 0, 0, Closed;
    }

    method Reset()
      modifies this
      ensures Value() == FRESH
    {
      name, dict, events := [], map[], [];
      curCode, curKind, stream := 0, 0, Closed;
    }

    method AddEvent(kind: byte, code: uint32, val: CbaDecode.Value)
      modifies this
      ensures Value() == CbaDecode.AddEvent(old(Value()), kind, code, val)
    {
      events := events + [Event(kind, code, val)];
      dict := dict[code := val];
    }
  }

  class CBA {
    const file: seq<byte>
    const extractFor: set<Name>
    const overwrite: bool
    const blocked: set<Name>
    const links: map<Name, Name>
    var disk: Files  // what the file system keeps
    var order: Order
    var filter: Option<seq<byte>>
    var pos: nat
    var eof: bool
    var ids: seq<byte>
    var state: map<byte, ThreadState>
    ghost var Repr: set<ThreadState>
    ghost var View: Table  // the values of all the thread states

    ghost predicate InFile()
      reads this
    {
      pos <= |file|
    }

    ghost predicate Valid()
      reads this, Repr
    {
      && Shape()
      && (forall t :: t in state ==> state[t].Value() == View.states[t])
    }

    ghost predicate Shape()
      reads this, Repr
    {
      && InFile()
      && View.Valid()
      && ids == View.ids
      && (forall t :: t in state <==> t in View.states)
      && (forall t :: t in state ==> state[t] in Repr && state[t].owner == t)
    }

    /** Brings `View` up to date when only the state of `tid` has changed. */
    ghost method Refresh(tid: byte)
      requires Shape() && tid in state
      requires forall t :: t in state && t != tid ==> state[t].Value() == View.states[t]
      modifies this`View
      ensures Valid() && View == old(View).Put(tid, state[tid].Value())
    {
      hide Table.Valid, Table.Get, Table.Put;
      PutOld(View, tid, state[tid].Value());
      PutValid(View, tid, state[tid].Value());
      View := View.Put(tid, state[tid].Value());
    }

    function Cfg(): Config
      reads this
    {
      Config(order, extractFor, overwrite, blocked, links, filter)
    }

    function Rest(): seq<byte>
      requires pos <= |file|
      reads this
    {
      file[pos..]
    }

    constructor (f: seq<byte>, extractFor: set<Name>, overwrite: bool, blocked: set<Name>, links: map<Name, Name>,
                 disk: Files)
      ensures Valid() && View == EMPTY && !eof && Repr == {} && this.disk == disk
      ensures Rest() == if f == [] then [] else f[1..]
      ensures Cfg() == Config(if f != [] && f[0] == LETTER_L then Little else Big, extractFor, overwrite, blocked,
                              links, None)
    {
      file := f;
      this.extractFor, this.overwrite, this.blocked, this.links, this.disk :=
        extractFor, overwrite, blocked, links, disk;
      order := if f != [] && f[0] == LETTER_L then Little else Big;
      pos := if f == [] then 0 else 1;
      eof, filter, ids, state, Repr, View := false, None, [], map[], {}, EMPTY;
    }

    method Read(n: nat) returns (s: seq<byte>)
      requires InFile()
      modifies this`pos
      ensures InFile()
      ensures s == Take(old(Rest()), n) && pos == old(pos) + |s|
      ensures Rest() == old(Rest())[|s|..]
    {
      s := Take(file[pos..], n);
      pos := pos + |s|;
    }

    method Unpack(k: nat) returns (n: Option<nat>)
      requires InFile()
      modifies this`pos
      ensures InFile()
      ensures n.None? <==> |old(Rest())| < k
      ensures n.Some? ==> n.value == Dec(order, old(Rest())[..k]) && pos == old(pos) + k && Rest() == old(Rest())[k..]
    {
      var s := Read(k);
      n := if |s| < k then None else Some(Dec(order, s));
      assert |s| == k ==> s == old(Rest())[..k];
    }

    /** What a method that reads the packet bytes from offset `base` on must have done: what the function says. */
    twostate predicate Did(ts: ThreadState, p: Parsed, base: nat, out: seq<Output>, ok: bool)
      reads this, ts
    {
      match p
      case Bad(o) => !ok && out == o
      case Parsed(ts', o, used) => ok && out == o && ts.Value() == ts' && pos + base == old(pos) + used
    }

    method ReadChunk(ts: ThreadState) returns (out: seq<Output>, ok: bool)
      requires InFile() && ts.stream != Closed
      modifies this`pos, this`disk, ts
      ensures InFile()
      ensures Did(ts, CbaDecode.ReadChunk(Cfg(), old(ts.Value()), old(Rest())), 0, out, ok)
      ensures disk == if ok then DiskAfter(Cfg(), old(disk), old(ts.Value()), ts.Value()) else old(disk)
    {
      hide WriteAt;
      out, ok := [], true;
      var l := Unpack(2);
      if l.None? {
        ok := false;
      } else if l.value > 0 {
        var data := Read(l.value);
        if ts.stream.Disk? {
          assert (ts.stream.buf + data)[|ts.stream.buf|..] == data;
          Write(ts.stream.path, |ts.stream.buf|, data);
        }
        ts.stream := Feed(ts.stream, data);
      } else {
        if ts.curKind == CBA_DATA {
          if !ts.stream.Memory? { return [], false; }
          ts.AddEvent(ts.curKind, ts.curCode, Blob(ts.stream.buf));
        } else if ts.stream.Disk? {
          out := [Saved(ts.stream.path, ts.stream.buf)];
        }
        ts.stream := Closed;
      }
    }

    /** `write` through a handle that stands at `at`. */
    method Write(path: Name, at: nat, data: seq<byte>)
      modifies this`disk
      ensures var f := FileOf(Cfg(), path);
        disk == if f in old(disk) then old(disk)[f := WriteAt(old(disk)[f], at, data)] else old(disk)
    {
      hide WriteAt;
      var file := if path in links then links[path] else path;
      if file in disk {
        disk := disk[file := WriteAt(disk[file], at, data)];
      }
    }

    method ReadHead(ts: ThreadState, ghost s: seq<byte>, ghost base: nat) returns (out: seq<Output>, ok: bool)
      requires InFile() && base <= |s| && Rest() == s[base..]
      modifies this`pos, ts
      ensures InFile()
      ensures Did(ts, CbaDecode.ReadHead(Cfg(), old(ts.Value()), s, base), base, out, ok)
    {
      out, ok := Result(Cfg(), ts.Value()), true;
      ts.Reset();
      var l := Read(1);
      if |l| < 1 {
        ok := false;
      } else if l[0] > 0 {
        var name := Read(l[0]);
        if Ascii(name) { ts.name := name; } else { ok := false; }
      }
    }

    method ReadStr(ts: ThreadState, code: uint32, ghost s: seq<byte>, ghost base: nat)
      returns (out: seq<Output>, ok: bool)
      requires InFile() && base <= |s| && Rest() == s[base..]
      modifies this`pos, ts
      ensures InFile()
      ensures Did(ts, CbaDecode.ReadStr(Cfg(), old(ts.Value()), code, s, base), base, out, ok)
    {
      var l := Unpack(2);
      if l.None? { return [], false; }
      assert s[base..base + 2] == s[base..][..2];
      var text := Read(l.value);
      ts.AddEvent(CBA_STR, code, Text(text));
      return [], true;
    }

    method ReadNum(ts: ThreadState, kind: byte, k: nat, code: uint32, ghost s: seq<byte>, ghost base: nat)
      returns (out: seq<Output>, ok: bool)
      requires InFile() && base <= |s| && Rest() == s[base..]
      modifies this`pos, ts
      ensures InFile()
      ensures Did(ts, CbaDecode.ReadNum(Cfg(), old(ts.Value()), kind, k, code, s, base), base, out, ok)
    {
      var n := Unpack(k);
      if n.None? { return [], false; }
      assert s[base..base + k] == s[base..][..k];
      ts.AddEvent(kind, code, Num(Signed(k, n.value)));
      return [], true;
    }

    method ReadFile(ts: ThreadState, code: uint32, ghost s: seq<byte>, ghost base: nat)
      returns (out: seq<Output>, ok: bool)
      requires InFile() && base <= |s| && Rest() == s[base..] && ts.stream == Closed
      modifies this`pos, this`disk, ts
      ensures InFile()
      ensures Did(ts, CbaDecode.ReadFile(Cfg(), old(disk).Keys, old(ts.Value()), code, s, base), base, out, ok)
      ensures disk == if ok then DiskAfter(Cfg(), old(disk), old(ts.Value()), ts.Value()) else old(disk)
    {
      out, ok := [], true;
      var l := Unpack(2);
      if l.None? { return [], false; }
      assert s[base..base + 2] == s[base..][..2];
      var path: seq<byte> := [];
      ts.stream := Ignore;
      if ShouldExtract(Cfg(), ts.name) && l.value > 0 {
        path := Read(l.value);
        if !Ascii(path) { return [], false; }
        path := Sanitize(path);
      }
      if path != [] {
        var isOpen := Open(path);
        if isOpen { ts.stream := Disk(path, []); }
        ts.AddEvent(CBA_FILE, code, Path(path));
      }
    }

    /** `open(path, mode)`: with mode `xb` the file must be new, with `wb` it may exist and is emptied. */
    method Open(path: Name) returns (ok: bool)
      modifies this`disk
      ensures ok == CanOpen(Cfg(), old(disk).Keys, path)
      ensures disk == if ok then old(disk)[FileOf(Cfg(), path) := []] else old(disk)
    {
      var file := if path in links then links[path] else path;
      if path in blocked || (!overwrite && file in disk) { return false; }
      disk := disk[file := []];
      return true;
    }

    method ReadBody(ts: ThreadState, kind: byte, code: uint32, ghost s: seq<byte>, ghost base: nat)
      returns (out: seq<Output>, ok: bool)
      requires InFile() && base <= |s| && Rest() == s[base..] && ts.stream == Closed
      modifies this`pos, this`disk, ts
      ensures InFile()
      ensures Did(ts, CbaDecode.ReadBody(Cfg(), old(disk).Keys, old(ts.Value()), kind, code, s, base), base, out, ok)
      ensures disk == if ok then DiskAfter(Cfg(), old(disk), old(ts.Value()), ts.Value()) else old(disk)
    {
      hide Sanitize, ShouldExtract;
      out, ok := [], true;
      if kind != CBA_HEAD {
        ts.curCode, ts.curKind := code, kind;
      }
      if kind == CBA_HEAD {
        out, ok := ReadHead(ts, s, base);
      } else if kind == CBA_STR {
        out, ok := ReadStr(ts, code, s, base);
      } else if kind == CBA_DATA {
        ts.stream := Memory([]);
      } else if kind == CBA_BIT {
        ts.AddEvent(kind, code, Flag);
      } else if kind == CBA_INT32 {
        out, ok := ReadNum(ts, kind, 4, code, s, base);
      } else if kind == CBA_INT64 {
        out, ok := ReadNum(ts, kind, 8, code, s, base);
      } else if kind == CBA_FILE {
        out, ok := ReadFile(ts, code, s, base);
      }
    }

    method ReadEvent(ts: ThreadState) returns (out: seq<Output>, ok: bool)
      requires InFile() && ts.stream == Closed
      modifies this`pos, this`disk, ts
      ensures InFile()
      ensures Did(ts, CbaDecode.ReadEvent(Cfg(), old(disk).Keys, old(ts.Value()), old(Rest())), 0, out, ok)
      ensures disk == if ok then DiskAfter(Cfg(), old(disk), old(ts.Value()), ts.Value()) else old(disk)
    {
      hide CbaDecode.ReadBody;
      ghost var s := Rest();
      var first := Read(1);
      if |first| < 1 { return [], false; }
      assert Rest() == s[1..];
      if first[0] < 0x80 {
        out, ok := ReadBody(ts, first[0], 0, s, 1);
      } else {
        var c := Unpack(4);
        if c.None? { return [], false; }
        assert s[1..5] == s[1..][..4];
        assert Rest() == s[5..];
        DecFits(order, s[1..5]); Pow256Values();
        out, ok := ReadBody(ts, first[0] - 0x80, c.value, s, 5);
      }
    }

    method ReadOne(ts: ThreadState) returns (out: seq<Output>, ok: bool)
      requires InFile()
      modifies this`pos, this`disk, ts
      ensures InFile()
      ensures Did(ts, CbaDecode.ReadPacket(Cfg(), old(disk).Keys, old(ts.Value()), old(Rest())), 0, out, ok)
      ensures disk == if ok then DiskAfter(Cfg(), old(disk), old(ts.Value()), ts.Value()) else old(disk)
    {
      if ts.stream != Closed {
        out, ok := ReadChunk(ts);
      } else {
        out, ok := ReadEvent(ts);
      }
    }

    /** Keeps a new state for a thread not seen before. */
    method Admit(tid: byte, ts: ThreadState)
      requires Valid() && tid !in state && ts.owner == tid && ts.Value() == FRESH
      modifies this`ids, this`state, this`Repr, this`View
      ensures Valid() && state == old(state)[tid := ts]
      ensures Repr == old(Repr) + {ts} && View == old(View).Put(tid, FRESH)
    {
      hide Table.Valid, Table.Get, Table.Put;
      PutNew(View, tid, FRESH);
      PutValid(View, tid, FRESH);
      state := state[tid := ts];
      ids := ids + [tid];
      Repr := Repr + {ts};
      View := View.Put(tid, FRESH);
    }

    /** The state kept for `tid`, made on its first packet. */
    method StateOf(tid: byte) returns (ts: ThreadState)
      requires Valid()
      modifies this`ids, this`state, this`Repr, this`View
      ensures Valid() && tid in state && ts == state[tid] && ts in Repr && ts.Value() == old(View).Get(tid)
      ensures fresh(Repr - old(Repr)) && old(Repr) <= Repr
      ensures View == if tid in old(state) then old(View) else old(View).Put(tid, FRESH)
    {
      hide Table.Valid, Table.Put;
      if tid !in state {
        var made := new ThreadState(tid);
        Admit(tid, made);
      }
      ts := state[tid];
    }

    /** One packet of thread `tid`, whose state is `ts`. */
    method ReadInto(tid: byte, ts: ThreadState) returns (out: seq<Output>, ok: bool)
      requires Valid() && tid in state && ts == state[tid]
      modifies this`pos, this`disk, this`View, ts
      ensures Valid() && View == old(View).Put(tid, ts.Value())
      ensures Did(ts, CbaDecode.ReadPacket(Cfg(), old(disk).Keys, old(ts.Value()), old(Rest())), 0, out, ok)
      ensures disk == if ok then DiskAfter(Cfg(), old(disk), old(ts.Value()), ts.Value()) else old(disk)
    {
      hide CbaDecode.ReadPacket, Table.Valid, Table.Put, Table.Get, DiskAfter;
      out, ok := ReadOne(ts);
      assert forall t :: t in state && t != tid ==> state[t] != ts;
      Refresh(tid);
    }

    /** One packet, for whichever thread it belongs to. Sets `eof` when there is none. */
    method ReadPacket() returns (out: seq<(byte, Output)>, ok: bool)
      requires Valid()
      modifies this`pos, this`eof, this`disk, this`ids, this`state, this`Repr, this`View, Repr
      ensures fresh(Repr - old(Repr))
      ensures eof == (old(eof) || old(Rest()) == [])
      ensures ok ==> Valid() && InFile() && View.Valid()
      ensures old(Rest()) == [] ==> ok && out == [] && View == old(View) && pos == old(pos) && disk == old(disk)
      ensures old(Rest()) != [] ==>
        Advanced(old(disk), old(View), old(Rest()),
                 CbaDecode.ReadPacket(Cfg(), old(disk).Keys, old(View).Get(old(Rest())[0]), old(Rest())[1..]), out, ok)
    {
      hide CbaDecode.ReadPacket, Table.Valid, Table.Put, Table.Get, Tag, DiskAfter;
      ghost var here := Rest();
      var tbyte := Read(1);
      if tbyte == [] {
        eof := true;
        return [], true;
      }
      var o;
      o, ok := ReadFor(tbyte[0]);
      out := Tag(tbyte[0], o);
      RestOn(file, old(pos), pos);
    }

    /** The reader as it stands after the packet of thread `tid` that began at `start`. */
    ghost predicate Served(files: Files, view: Table, tid: byte, start: nat, p: Parsed, out: seq<Output>, ok: bool)
      reads this
    {
      match p
      case Bad(o) => !ok && out == o && disk == files
      case Parsed(ts', o, used) =>
        && ok && out == o && View == view.Put(tid, ts') && pos == start + used
        && disk == DiskAfter(Cfg(), files, view.Get(tid), ts')
    }

    /** The packet whose thread id has just been read. */
    method ReadFor(tid: byte) returns (out: seq<Output>, ok: bool)
      requires Valid()
      modifies this`pos, this`disk, this`ids, this`state, this`Repr, this`View, Repr
      ensures fresh(Repr - old(Repr))
      ensures ok ==> Valid() && pos >= old(pos)
      ensures Served(old(disk), old(View), tid, old(pos),
                     CbaDecode.ReadPacket(Cfg(), old(disk).Keys, old(View).Get(tid), old(Rest())), out, ok)
    {
      hide CbaDecode.ReadPacket, Table.Valid, Table.Put, Table.Get, DiskAfter, Valid, Shape;
      var ts := StateOf(tid);
      out, ok := ReadInto(tid, ts);
      PutPut(old(View), tid, FRESH, ts.Value());
    }

    /** The reader as it stands after one packet of the bytes `here`, for which the function says `p`. */
    ghost predicate Advanced(files: Files, view: Table, here: seq<byte>, p: Parsed, out: seq<(byte, Output)>,
                             ok: bool)
      requires here != []
      reads this
    {
      match p
      case Bad(o) => !ok && out == Tag(here[0], o) && disk == files
      case Parsed(ts', o, used) =>
        && ok && out == Tag(here[0], o)
        && View == view.Put(here[0], ts')
        && disk == DiskAfter(Cfg(), files, view.Get(here[0]), ts')
        && 1 + used <= |here| && InFile() && Rest() == here[1 + used..]
    }

    /** What a pass yields in all, when `out` is what it has yielded so far. */
    ghost function InAll(out: seq<(byte, Output)>): Outcome
      requires Valid()
      reads this, Repr
    {
      Onward(out, CbaDecode.Entries(Cfg(), disk, View, Rest()))
    }

    /** The table as the pass will leave it. */
    ghost function LastView(): Table
      requires Valid()
      reads this, Repr
    {
      LastTable(Cfg(), disk, View, Rest())
    }

    /** One more packet of a pass. */
    method Proceed(sofar: seq<(byte, Output)>) returns (out: seq<(byte, Output)>, ok: bool)
      requires Valid() && !eof
      modifies this`pos, this`eof, this`disk, this`ids, this`state, this`Repr, this`View, Repr
      ensures fresh(Repr - old(Repr))
      ensures ok ==> Valid() && InAll(out) == old(InAll(sofar)) && LastView() == old(LastView())
      ensures !ok ==> Outcome(out, false, disk) == old(InAll(sofar))
      ensures ok ==> eof ==> Rest() == []
      ensures ok && !eof ==> |Rest()| < |old(Rest())|
    {
      hide CbaDecode.ReadPacket, CbaDecode.Entries, LastTable, Table.Valid, Table.Put, Table.Get, DiskAfter, Tag;
      ghost var files, view, here := disk, View, Rest();
      var o;
      o, ok := ReadPacket();
      out := sofar + o;
      if here != [] {
        OnePacketOn(Cfg(), files, view, here, sofar,
                    CbaDecode.ReadPacket(Cfg(), files.Keys, view.Get(here[0]), here[1..]));
      } else {
        assert sofar + [] == sofar;
      }
    }

    /** One pass over a fresh reader: everything it yields, and whether it came to the end of the file. The states it
        then has are those of the pass function. */
    method Entries(module_: Option<seq<byte>>) returns (out: seq<(byte, Output)>, ok: bool)
      requires Valid() && !eof
      modifies this, Repr
      ensures Outcome(out, ok, disk)
        == CbaDecode.Entries(old(Cfg()).(filter := module_), old(disk), old(View), old(Rest()))
      ensures ok ==> View == LastTable(old(Cfg()).(filter := module_), old(disk), old(View), old(Rest()))
    {
      hide CbaDecode.Entries, LastTable, ReadFinal, Table.Valid;
      filter := module_;
      out, ok := [], true;
      ghost var all, last := InAll([]), LastView();
      while !eof
        invariant Valid() && ok
        invariant fresh(Repr - old(Repr))
        invariant eof ==> Rest() == []
        invariant InAll(out) == all && LastView() == last
        decreases |Rest()|, !eof
      {
        out, ok := Proceed(out);
        if !ok {
          return;
        }
      }
      PassEnds(Cfg(), disk, View);
      var final := Final();
      out := out + final;
    }

    method Final() returns (out: seq<(byte, Output)>)
      requires Valid()
      ensures out == ReadFinal(Cfg(), View.states, View.ids)
    {
      hide Tag, Result;
      out := [];
      assert ids[..|ids|] == ids;
      for i := 0 to |ids|
        invariant out == ReadFinal(Cfg(), View.states, ids[..i])
      {
        FinalLast(Cfg(), View.states, ids[..i], ids[i]);
        assert ids[..i + 1] == ids[..i] + [ids[i]];
        out := out + Tag(ids[i], Result(Cfg(), state[ids[i]].Value()));
      }
    }
  }

  lemma {:induction false} FinalLast(cfg: Config, states: map<byte, State>, ids: seq<byte>, tid: byte)
    requires (forall t :: t in ids ==> t in states) && tid in states
    ensures ReadFinal(cfg, states, ids + [tid]) == ReadFinal(cfg, states, ids) + Tag(tid, Result(cfg, states[tid]))
  {
    hide Tag, Result;
    var last := Tag(tid, Result(cfg, states[tid]));
    if ids == [] {
      assert [tid][1..] == [];
      assert last + [] == last && [] + last == last;
    } else {
      FirstOfConcat(ids, [tid]);
      FinalLast(cfg, states, ids[1..], tid);
      Assoc(Tag(ids[0], Result(cfg, states[ids[0]])), ReadFinal(cfg, states, ids[1..]), last);
    }
  }

  function Onward(sofar: seq<(byte, Output)>, rest: Outcome): Outcome {
    Outcome(sofar + rest.out, rest.ok, rest.disk)
  }

  lemma PassEnds(cfg: Config, disk: Files, view: Table)
    requires view.Valid()
    ensures CbaDecode.Entries(cfg, disk, view, []) == Outcome(ReadFinal(cfg, view.states, view.ids), true, disk)
    ensures LastTable(cfg, disk, view, []) == view
  {
  }

  lemma PutNew(view: Table, tid: byte, ts: State)
    requires tid !in view.states
    ensures view.Put(tid, ts) == Table(view.ids + [tid], view.states[tid := ts])
  {
  }

  lemma PutOld(view: Table, tid: byte, ts: State)
    requires tid in view.states
    ensures view.Put(tid, ts) == Table(view.ids, view.states[tid := ts])
  {
  }

  lemma PutValid(view: Table, tid: byte, ts: State)
    requires view.Valid()
    ensures view.Put(tid, ts).Valid()
  {
  }

  lemma PutPut(view: Table, tid: byte, first: State, second: State)
    ensures view.Put(tid, first).Put(tid, second) == view.Put(tid, second)
  {
  }

  /** Where the file continues after a thread id and what was read behind it. */
  lemma RestOn(file: seq<byte>, before: nat, now: nat)
    requires before < |file|
    ensures file[before..][0] == file[before] && file[before..][1..] == file[before + 1..]
    ensures before + 1 <= now <= |file| ==>
      now - before <= |file[before..]| && file[now..] == file[before..][now - before..]
  {
  }

  lemma OnePacketOn(cfg: Config, disk: Files, view: Table, here: seq<byte>, sofar: seq<(byte, Output)>, p: Parsed)
    requires view.Valid() && here != []
    requires CbaDecode.ReadPacket(cfg, disk.Keys, view.Get(here[0]), here[1..]) == p
    ensures p.Bad? ==> CbaDecode.Entries(cfg, disk, view, here) == Outcome(Tag(here[0], p.out), false, disk)
    ensures p.Parsed? ==>
      Onward(sofar, CbaDecode.Entries(cfg, disk, view, here))
        == Onward(sofar + Tag(here[0], p.out),
                  CbaDecode.Entries(cfg, DiskAfter(cfg, disk, view.Get(here[0]), p.ts), view.Put(here[0], p.ts),
                                    here[1 + p.used..]))
    ensures p.Parsed? ==>
      LastTable(cfg, disk, view, here)
        == LastTable(cfg, DiskAfter(cfg, disk, view.Get(here[0]), p.ts), view.Put(here[0], p.ts), here[1 + p.used..])
  {
    hide CbaDecode.ReadPacket, Table.Valid, Table.Put, Table.Get, Tag, DiskAfter;
    if p.Parsed? {
      var b := CbaDecode.Entries(cfg, DiskAfter(cfg, disk, view.Get(here[0]), p.ts), view.Put(here[0], p.ts),
                                 here[1 + p.used..]);
      assert CbaDecode.Entries(cfg, disk, view, here) == Onward(Tag(here[0], p.out), b);
      Assoc(sofar, Tag(here[0], p.out), b.out);
    }
  }
}
