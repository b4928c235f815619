/**
 * The persistence handler: it records every packet of a session, as the raw bytes of
 * the packet struct, into one file per session id, opened at the session's start event
 * and closed at its end event. A session whose packets arrive while no file is open is
 * ignored (with one warning) until its next start. Each open file is an append-only
 * byte sequence; the disk maps a path to the bytes of the file closed there.
 */
module FileWriters {
  import opened Wrappers
  import opened Wire
  import opened PacketHeaders
  import opened PacketFormats
  import opened EventPackets
  import opened Packets
  import opened Handlers

  /** The prefix of the file names when none is given. */
  const DefaultPrefix: string := "F1TelemetrySession"

  /** The extension of a recording. */
  const Extension: string := ".f1s.gz"

  function Digit(d: nat): (c: char)
    requires d < 10
  {
    ('0' as int + d) as char
  }

  predicate IsDigit(c: char) {
    '0' as int <= c as int <= '9' as int
  }

  /** The decimal rendering of an unsigned id, as ulong.ToString() writes it. */
  function Decimal(n: nat): (s: string)
    ensures |s| >= 1 && forall i :: 0 <= i < |s| ==> IsDigit(s[i])
  {
    if n < 10 then [Digit(n)] else Decimal(n / 10) + [Digit(n % 10)]
  }

  /** The number a string of decimal digits denotes. */
  function ParseDecimal(s: string): nat
    requires forall i :: 0 <= i < |s| ==> IsDigit(s[i])
  {
    if s == [] then 0
    else
      assert IsDigit(s[|s| - 1]);
      ParseDecimal(s[..|s| - 1]) * 10 + (s[|s| - 1] as int - '0' as int)
  }

  /** Parsing a rendered id gives the id back. */
  lemma {:induction false} ParseDecimalOf(n: nat)
    ensures ParseDecimal(Decimal(n)) == n
  {
    if n >= 10 {
      var s := Decimal(n);
      assert s[..|s| - 1] == Decimal(n / 10);
      ParseDecimalOf(n / 10);
    }
  }

  /** The file name of a session's recording: `<prefix>_<id>.f1s.gz`. */
  function FileName(prefix: string, id: nat): (name: string)
    ensures |name| > |prefix| + 1 + |Extension|
    ensures name[..|prefix| + 1] == prefix + "_" && name[|name| - |Extension|..] == Extension
    ensures forall i :: |prefix| + 1 <= i < |name| - |Extension| ==> IsDigit(name[i])
    ensures ParseDecimal(name[|prefix| + 1..|name| - |Extension|]) == id
  {
    var name := prefix + "_" + Decimal(id) + Extension;
    assert name[|prefix| + 1..|name| - |Extension|] == Decimal(id);
    ParseDecimalOf(id);
    name
  }

  /** Distinct sessions are recorded under distinct file names: the id is read back from the name. */
  lemma FileNameInjective(prefix: string, a: nat, b: nat)
    requires FileName(prefix, a) == FileName(prefix, b)
    ensures a == b
  {
  }

  /** Path.Combine(location, name) for a relative name: a separator is added unless location is empty or ends with one. */
  function Combine(location: string, name: string): (path: string)
    ensures |path| >= |name| && path[|path| - |name|..] == name
  {
    if location == [] || location[|location| - 1] == '/' then location + name else location + "/" + name
  }

  /** Where a session is recorded. */
  function PathOf(location: string, prefix: string, id: nat): string {
    Combine(location, FileName(prefix, id))
  }

  /** Distinct sessions are recorded at distinct paths. */
  lemma PathsDistinct(location: string, prefix: string, a: nat, b: nat)
    requires a != b
    ensures PathOf(location, prefix, a) != PathOf(location, prefix, b)
  {
    if PathOf(location, prefix, a) == PathOf(location, prefix, b) {
      var p := PathOf(location, prefix, a);
      assert |FileName(prefix, a)| == |FileName(prefix, b)|;
      assert FileName(prefix, a) == p[|p| - |FileName(prefix, a)|..] == FileName(prefix, b);
      FileNameInjective(prefix, a, b);
    }
  }

  /** An open recording: where it is written and the bytes written to it so far. */
  datatype Stream = Stream(path: string, bytes: seq<byte>)

  /** The handler's state: the open recordings, the ignored sessions, the closed files. */
  datatype WriterState = WriterState(files: map<nat, Stream>, ignored: set<nat>, disk: map<string, seq<byte>>)

  /** Every open recording is at its session's path, and no session is both open and ignored. */
  predicate Consistent(location: string, prefix: string, st: WriterState) {
    (forall id :: id in st.files ==> st.files[id].path == PathOf(location, prefix, id)) && st.files.Keys !! st.ignored
  }

  /**
   * WritePacket: with an open recording, the raw bytes are appended to it; without one
   * the session becomes ignored (the warning is logged only the first time).
   */
  function Written(st: WriterState, id: nat, raw: seq<byte>): (r: WriterState)
    ensures r.disk == st.disk && r.files.Keys == st.files.Keys
    ensures id in st.files ==> r.files[id] == st.files[id].(bytes := st.files[id].bytes + raw) && r.ignored == st.ignored
    ensures id !in st.files ==> r.files == st.files && r.ignored == st.ignored + {id}
    ensures forall k :: k in st.files && k != id ==> r.files[k] == st.files[k]
  {
    if id in st.files then st.(files := st.files[id := st.files[id].(bytes := st.files[id].bytes + raw)])
    else if id !in st.ignored then st.(ignored := st.ignored + {id})
    else st
  }

  /** Disposing a recording: its bytes land on disk at its path and it leaves the open set. */
  function Closed(st: WriterState, id: nat): WriterState
    requires id in st.files
  {
    WriterState(st.files - {id}, st.ignored, st.disk[st.files[id].path := st.files[id].bytes])
  }

  /** A successful open: the file is created empty (or truncated), registered, and the session no longer ignored. */
  function Opened(st: WriterState, path: string, id: nat): WriterState {
    WriterState(st.files[id := Stream(path, [])], st.ignored - {id}, st.disk[path := []])
  }

  /**
   * What the handler takes from a call: the packet type, the header's session id, the
   * event code (empty for other packets) and the struct's raw memory image, which is
   * its wire image.
   */
  datatype Arrival = Arrival(kind: PacketType, id: nat, code: string, raw: seq<byte>)

  function ArrivalOf(c: Call): Arrival
    requires WellFormed(c)
  {
    Arrival(c.kind, SessionOf(c), if c.kind == Event then EventCode(c.packet) else "", Write(FormatOf(c.kind), c.packet))
  }

  /**
   * The state after one handler call; opens says whether creating the file succeeds.
   * SSTA closes the session's open recording, opens a new one, and writes the start
   * packet to it; SEND with an open recording writes the end packet and closes it; any
   * other event changes nothing; every other packet is written.
   */
  function Handled(location: string, prefix: string, st: WriterState, a: Arrival, opens: bool): WriterState {
    var id := a.id;
    if a.kind == Event then
      if a.code == StartCode then
        var reset := if id in st.files then Closed(st, id) else st;
        var started := if opens then Opened(reset, PathOf(location, prefix, id), id) else reset;
        Written(started, id, a.raw)
      else if a.code == EndCode && id in st.files then
        Closed(Written(st, id, a.raw), id)
      else st
    else Written(st, id, a.raw)
  }

  /** Every call keeps the state consistent. */
  lemma HandledConsistent(location: string, prefix: string, st: WriterState, a: Arrival, opens: bool)
    requires Consistent(location, prefix, st)
    ensures Consistent(location, prefix, Handled(location, prefix, st, a, opens))
  {
    var id := a.id;
    if a.kind == Event && a.code == StartCode {
      var reset := if id in st.files then Closed(st, id) else st;
      assert Consistent(location, prefix, reset);
      var started := if opens then Opened(reset, PathOf(location, prefix, id), id) else reset;
      assert Consistent(location, prefix, started);
      WrittenConsistent(location, prefix, started, id, a.raw);
    } else if a.kind == Event && a.code == EndCode && id in st.files {
      WrittenConsistent(location, prefix, st, id, a.raw);
    } else if a.kind != Event {
      WrittenConsistent(location, prefix, st, id, a.raw);
    }
  }

  /** Writing keeps the state consistent: it appends to an open recording or ignores a session with none. */
  lemma WrittenConsistent(location: string, prefix: string, st: WriterState, id: nat, raw: seq<byte>)
    requires Consistent(location, prefix, st)
    ensures Consistent(location, prefix, Written(st, id, raw))
  {
  }

  lemma AppendAssoc(a: seq<byte>, b: seq<byte>, c: seq<byte>)
    ensures (a + b) + c == a + (b + c)
  {
  }

  /** A stream of calls, each applied in turn (opening succeeds or fails alike for all). */
  function Fold(location: string, prefix: string, st: WriterState, arrivals: seq<Arrival>, opens: bool): WriterState
    decreases |arrivals|
  {
    if arrivals == [] then st else Fold(location, prefix, Handled(location, prefix, st, arrivals[0], opens), arrivals[1..], opens)
  }

  /** The raw bytes of a stream of calls, one after another. */
  function Raws(arrivals: seq<Arrival>): seq<byte>
    decreases |arrivals|
  {
    if arrivals == [] then [] else arrivals[0].raw + Raws(arrivals[1..])
  }

  /** Packets that are not events, all for session id. */
  predicate PacketsOf(id: nat, arrivals: seq<Arrival>) {
    forall i :: 0 <= i < |arrivals| ==> arrivals[i].kind != Event && arrivals[i].id == id
  }

  /** While a recording is open, a session's packets are appended to it in order, and nothing else changes. */
  lemma {:induction false} PacketsAppend(location: string, prefix: string, st: WriterState, id: nat, arrivals: seq<Arrival>, opens: bool)
    requires id in st.files && PacketsOf(id, arrivals)
    ensures var r := Fold(location, prefix, st, arrivals, opens);
      r.files == st.files[id := st.files[id].(bytes := st.files[id].bytes + Raws(arrivals))] &&
      r.ignored == st.ignored && r.disk == st.disk
    decreases |arrivals|
  {
    if arrivals != [] {
      var a, rest := arrivals[0], arrivals[1..];
      var next := Handled(location, prefix, st, a, opens);
      var s0 := st.files[id];
      var s1 := s0.(bytes := s0.bytes + a.raw);
      assert next.files == st.files[id := s1];
      assert PacketsOf(id, rest) by {
        forall i | 0 <= i < |rest| ensures rest[i] == arrivals[i + 1] { }
      }
      PacketsAppend(location, prefix, next, id, rest, opens);
      assert Fold(location, prefix, st, arrivals, opens) == Fold(location, prefix, next, rest, opens);
      assert Raws(arrivals) == a.raw + Raws(rest);
      AppendAssoc(s0.bytes, a.raw, Raws(rest));
      assert s1.(bytes := s1.bytes + Raws(rest)) == s0.(bytes := s0.bytes + Raws(arrivals));
      assert next.files[id := s1.(bytes := s1.bytes + Raws(rest))] == st.files[id := s0.(bytes := s0.bytes + Raws(arrivals))];
    } else {
      assert st.files[id].(bytes := st.files[id].bytes + []) == st.files[id];
    }
  }

  /**
   * A whole session recorded: after its start event (the file opens), its packets and
   * its end event, the file at the session's path holds exactly the raw bytes of all of
   * them, in arrival order, and the session has no open recording.
   */
  lemma SessionRecorded(location: string, prefix: string, st: WriterState, start: Arrival, arrivals: seq<Arrival>, end: Arrival)
    requires start.kind == Event && start.code == StartCode && end.kind == Event && end.code == EndCode
    requires end.id == start.id && PacketsOf(start.id, arrivals)
    ensures var r := Handled(location, prefix, Fold(location, prefix, Handled(location, prefix, st, start, true), arrivals, true), end, true);
      PathOf(location, prefix, start.id) in r.disk &&
      r.disk[PathOf(location, prefix, start.id)] == start.raw + Raws(arrivals) + end.raw &&
      start.id !in r.files
  {
    var id := start.id;
    var begun := Handled(location, prefix, st, start, true);
    assert begun.files[id] == Stream(PathOf(location, prefix, id), start.raw);
    PacketsAppend(location, prefix, begun, id, arrivals, true);
  }

  /** The paths of the open recordings. */
  function Paths(files: map<nat, Stream>): set<string> {
    set id | id in files :: files[id].path
  }

  /**
   * Part way through disposing the recordings open: those still open are unchanged, those
   * closed are on disk at their paths, and no other file on disk has changed.
   */
  ghost predicate Closing(open: map<nat, Stream>, disk0: map<string, seq<byte>>, files: map<nat, Stream>, disk: map<string, seq<byte>>) {
    (forall id :: id in files ==> id in open && files[id] == open[id]) &&
    (forall id :: id in open && id !in files ==> open[id].path in disk && disk[open[id].path] == open[id].bytes) &&
    (forall p :: p in disk0 && p !in Paths(open) ==> p in disk && disk[p] == disk0[p]) &&
    (forall p :: p in disk ==> p in disk0 || p in Paths(open))
  }

  /** Closing one more recording keeps the disposal on track when the open recordings have distinct paths. */
  lemma CloseKeepsClosing(open: map<nat, Stream>, disk0: map<string, seq<byte>>, st: WriterState, id: nat)
    requires forall a, b :: a in open && b in open && a != b ==> open[a].path != open[b].path
    requires Closing(open, disk0, st.files, st.disk) && id in st.files
    ensures Closing(open, disk0, Closed(st, id).files, Closed(st, id).disk)
  {
    assert st.files[id].path in Paths(open);
  }

  /** The handler: the save location and file prefix, and its state as fields. */
  class FileWriterPacketHandler {
    const location: string
    const prefix: string
    var files: map<nat, Stream>
    var ignored: set<nat>
    var disk: map<string, seq<byte>>

    function State(): WriterState
      reads this
    {
      WriterState(files, ignored, disk)
    }

    predicate Coherent()
      reads this
    {
      Consistent(location, prefix, State())
    }

    /** The location defaults to <appData>/F1Telemetry, the prefix to F1TelemetrySession; nothing is open or ignored. */
    constructor(saveLocation: Option<string>, filePrefix: Option<string>, appData: string, disk: map<string, seq<byte>>)
      ensures location == (if saveLocation.Some? then saveLocation.value else Combine(appData, "F1Telemetry"))
      ensures prefix == (if filePrefix.Some? then filePrefix.value else DefaultPrefix)
      ensures State() == WriterState(map[], {}, disk) && Coherent()
    {
      location := if saveLocation.Some? then saveLocation.value else Combine(appData, "F1Telemetry");
      prefix := if filePrefix.Some? then filePrefix.value else DefaultPrefix;
      files, ignored := map[], {};
      this.disk := disk;
    }

    /** WritePacket; warned says whether the "ignoring this session" warning was logged. */
    method WritePacket(id: nat, raw: seq<byte>) returns (warned: bool)
      modifies this
      ensures State() == Written(old(State()), id, raw)
      ensures warned <==> id !in old(files) && id !in old(ignored)
    {
      warned := false;
      if id in files {
        files := files[id := files[id].(bytes := files[id].bytes + raw)];
      } else if id !in ignored {
        warned := true;
        ignored := ignored + {id};
      }
    }

    /** Disposing one recording and removing it from the open set. */
    method Close(id: nat)
      requires id in files
      modifies this
      ensures State() == Closed(old(State()), id)
    {
      disk := disk[files[id].path := files[id].bytes];
      files := files - {id};
    }

    /** OnPacketEventData; opens says whether creating the session's file succeeds. */
    method OnPacketEventData(packet: Packet, source: PacketSource, opens: bool)
      requires Valid(EventFormat, packet) && Coherent()
      modifies this
      ensures State() == Handled(location, prefix, old(State()), ArrivalOf(Call(Event, packet, source)), opens) && Coherent()
    {
      Handle(Arrival(Event, packet.header.sessionUid, EventCode(packet), Write(EventFormat, packet)), opens);
    }

    /** The seven other On* methods: write the packet for its header's session id. */
    method OnPacket(kind: PacketType, packet: Packet, source: PacketSource)
      requires kind != Event && Valid(FormatOf(kind), packet) && Coherent()
      modifies this
      ensures State() == Handled(location, prefix, old(State()), ArrivalOf(Call(kind, packet, source)), true) && Coherent()
    {
      Handle(Arrival(kind, packet.header.sessionUid, "", Write(FormatOf(kind), packet)), true);
    }

    /** The body shared by the On* methods, on what they take from the packet. */
    method Handle(a: Arrival, opens: bool)
      requires Coherent()
      modifies this
      ensures State() == Handled(location, prefix, old(State()), a, opens) && Coherent()
    {
      HandledConsistent(location, prefix, State(), a, opens);
      var id := a.id;
      if a.kind != Event {
        var _ := WritePacket(id, a.raw);
      } else if a.code == StartCode {
        if id in files {
          Close(id);
        }
        ghost var reset := State();
        if opens {
          var path := PathOf(location, prefix, id);
          disk := disk[path := []];
          files := files[id := Stream(path, [])];
          ignored := ignored - {id};
          assert State() == Opened(reset, path, id);
        }
        var _ := WritePacket(id, a.raw);
      } else if a.code == EndCode {
        if id in files {
          var _ := WritePacket(id, a.raw);
          Close(id);
        }
      }
    }

    /**
     * Dispose: every open recording is closed, its bytes on disk at its path (its
     * session's path, by Coherent), and the open set emptied; no other file changes.
     */
    method Dispose()
      requires Coherent()
      modifies this
      ensures files == map[] && ignored == old(ignored) && Coherent()
      ensures forall id :: id in old(files) ==> old(files)[id].path in disk && disk[old(files)[id].path] == old(files)[id].bytes
      ensures forall p :: p in old(disk) && p !in Paths(old(files)) ==> p in disk && disk[p] == old(disk)[p]
      ensures forall p :: p in disk ==> p in old(disk) || p in Paths(old(files))
    {
      ghost var open := files;
      forall a, b | a in open && b in open && a != b ensures open[a].path != open[b].path {
        PathsDistinct(location, prefix, a, b);
      }
      while files != map[]
        invariant Coherent() && ignored == old(ignored)
        invariant Closing(open, old(disk), files, disk)
        decreases files.Keys
      {
        var id :| id in files;
        ghost var before := State();
        Close(id);
        CloseKeepsClosing(open, old(disk), before, id);
      }
    }
  }
}
