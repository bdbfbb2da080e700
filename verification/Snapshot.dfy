/** The snapshot of the history inside a checkpoint: repeated strings are interned, and a small binary file wraps the ciphertext. */
module Snapshot {
  import opened Base
  import opened Merge

  datatype Stamped = Stamped(e: Entry, created: int)

  datatype CompactRow = CompactRow(id: string, command: string, start: int, end: Option<int>, duration: Option<int>,
                                   exit: Option<int>, cwd: string, session: int, host: int, device: int, shell: int,
                                   deleted: bool, originDevice: int, originSeq: Option<int>, created: int)

  datatype Tables = Tables(sessions: seq<string>, hosts: seq<string>, devices: seq<string>, shells: seq<string>)

  // ---- Interning ----

  /** The list and its index are inverse, and the empty string has number 0. */
  ghost predicate Interned(list: seq<string>, index: map<string, int>) {
    && list != [] && list[0] == ""
    && (forall i :: 0 <= i < |list| ==> list[i] in index && index[list[i]] == i)
    && (forall s :: s in index ==> 0 <= index[s] < |list| && list[index[s]] == s)
  }

  class InternTable {
    var list: seq<string>
    var index: map<string, int>

    ghost predicate Valid()
      reads this
    {
      Interned(list, index)
    }

    constructor ()
      ensures Valid() && list == [""]
    {
      list, index := [""], map["" := 0];
    }

    method Add(s: string) returns (i: int)
      requires Valid()
      modifies this
      ensures Valid() && 0 <= i < |list| && list[i] == s && old(list) <= list
      ensures s in old(list) ==> list == old(list)
    {
      if s in index {
        return index[s];
      }
      i := |list|;
      index := index[s := i];
      list := list + [s];
    }
  }

  // ---- Decoding ----

  function Lookup(list: seq<string>, i: int): Option<string> {
    if 0 <= i < |list| then Some(list[i]) else None
  }

  function DecodeRow(t: Tables, r: CompactRow): Option<Stamped> {
    var session, host, dev, origin, shell := Lookup(t.sessions, r.session), Lookup(t.hosts, r.host),
                                             Lookup(t.devices, r.device), Lookup(t.devices, r.originDevice), Lookup(t.shells, r.shell);
    if session.None? || host.None? || dev.None? || origin.None? || shell.None? then None
    else Some(Stamped(Entry(r.id, r.command, r.start, r.end, r.duration, r.exit, r.cwd, session.value, host.value, dev.value,
                            shell.value, r.deleted, origin.value, r.originSeq), r.created))
  }

  ghost predicate DecodesTo(t: Tables, rows: seq<CompactRow>, es: seq<Stamped>) {
    |rows| == |es| && forall i :: 0 <= i < |rows| ==> DecodeRow(t, rows[i]) == Some(es[i])
  }

  /** All the rows, or nothing if an index is out of range. */
  method DecodeEntries(t: Tables, rows: seq<CompactRow>) returns (es: Option<seq<Stamped>>)
    ensures es.Some? ==> DecodesTo(t, rows, es.value)
    ensures es.None? <==> exists i :: 0 <= i < |rows| && DecodeRow(t, rows[i]).None?
  {
    var out := [];
    for i := 0 to |rows|
      invariant DecodesTo(t, rows[..i], out)
    {
      var e := DecodeRow(t, rows[i]);
      if e.None? {
        return None;
      }
      out := out + [e.value];
    }
    es := Some(out);
  }

  /** Tables that grow still decode what they decoded. */
  ghost predicate Grown(t: Tables, t': Tables) {
    t.sessions <= t'.sessions && t.hosts <= t'.hosts && t.devices <= t'.devices && t.shells <= t'.shells
  }

  // ---- Encoding ----

  lemma DecodesMore(t: Tables, t': Tables, rows: seq<CompactRow>, es: seq<Stamped>, row: CompactRow, e: Stamped)
    requires DecodesTo(t, rows, es) && Grown(t, t') && DecodeRow(t', row) == Some(e)
    ensures DecodesTo(t', rows + [row], es + [e])
  {
  }

  /** The four tables of one snapshot. */
  class Encoder {
    const sessions: InternTable
    const hosts: InternTable
    const devices: InternTable
    const shells: InternTable

    ghost predicate Valid()
      reads this, sessions, hosts, devices, shells
    {
      && sessions.Valid() && hosts.Valid() && devices.Valid() && shells.Valid()
      && sessions != hosts && sessions != devices && sessions != shells
      && hosts != devices && hosts != shells && devices != shells
    }

    function Current(): Tables
      reads this, sessions, hosts, devices, shells
    {
      Tables(sessions.list, hosts.list, devices.list, shells.list)
    }

    constructor ()
      ensures Valid() && fresh(sessions) && fresh(hosts) && fresh(devices) && fresh(shells)
    {
      var a := new InternTable();
      var b := new InternTable();
      var c := new InternTable();
      var d := new InternTable();
      sessions, hosts, devices, shells := a, b, c, d;
    }

    method EncodeRow(s: Stamped) returns (row: CompactRow)
      requires Valid()
      modifies sessions, hosts, devices, shells
      ensures Valid() && Grown(old(Current()), Current()) && DecodeRow(Current(), row) == Some(s)
    {
      var e := s.e;
      var session := sessions.Add(e.session);
      var host := hosts.Add(e.hostname);
      var device := devices.Add(e.device);
      var shell := shells.Add(e.shell);
      var origin := devices.Add(e.originDevice);
      row := CompactRow(e.id, e.command, e.start, e.end, e.duration, e.exit, e.cwd, session, host, device, shell,
                        e.deleted, origin, e.originSeq, s.created);
      RowDecodes(Current(), s, session, host, device, shell, origin);
    }
  }

  lemma RowDecodes(t: Tables, s: Stamped, session: int, host: int, device: int, shell: int, origin: int)
    requires Lookup(t.sessions, session) == Some(s.e.session) && Lookup(t.hosts, host) == Some(s.e.hostname)
    requires Lookup(t.devices, device) == Some(s.e.device) && Lookup(t.devices, origin) == Some(s.e.originDevice)
    requires Lookup(t.shells, shell) == Some(s.e.shell)
    ensures var e := s.e;
            DecodeRow(t, CompactRow(e.id, e.command, e.start, e.end, e.duration, e.exit, e.cwd, session, host, device, shell,
                                    e.deleted, origin, e.originSeq, s.created)) == Some(s)
  {
  }

  /** A table starts with the empty string and has no string twice. */
  ghost predicate NoRepeats(list: seq<string>) {
    && list != [] && list[0] == ""
    && forall i, j :: 0 <= i < j < |list| ==> list[i] != list[j]
  }

  method EncodeSnapshot(es: seq<Stamped>) returns (t: Tables, rows: seq<CompactRow>)
    ensures DecodesTo(t, rows, es)
    ensures NoRepeats(t.sessions) && NoRepeats(t.hosts) && NoRepeats(t.devices) && NoRepeats(t.shells)
  {
    var enc := new Encoder();
    rows := [];
    for i := 0 to |es|
      invariant enc.Valid() && fresh(enc.sessions) && fresh(enc.hosts) && fresh(enc.devices) && fresh(enc.shells)
      invariant DecodesTo(enc.Current(), rows, es[..i])
    {
      ghost var before := enc.Current();
      var row := enc.EncodeRow(es[i]);
      DecodesMore(before, enc.Current(), rows, es[..i], row, es[i]);
      TakeSnoc(es, i);
      rows := rows + [row];
    }
    TakeAll(es);
    t := enc.Current();
  }

  /** Decoding what was encoded gives the entries back. */
  method RoundTrip(es: seq<Stamped>) returns (es': Option<seq<Stamped>>)
    ensures es' == Some(es)
  {
    var t, rows := EncodeSnapshot(es);
    es' := DecodeEntries(t, rows);
    if es'.Some? {
      assert forall i :: 0 <= i < |rows| ==> DecodeRow(t, rows[i]) == Some(es[i]);
      assert es'.value == es;
    }
  }

  // ---- The file ----

  const MAGIC: seq<byte> := [0x53, 0x53, 0x63, 0x70]
  const FILE_V1: byte := 1

  function EncodeFile(nonce: seq<byte>, ct: seq<byte>): seq<byte> {
    MAGIC + [FILE_V1] + [(|nonce| % 256) as byte] + nonce + ct
  }

  datatype File = File(nonce: seq<byte>, ct: seq<byte>) | Invalid

  /** `json` reads the older wrapper. */
  function DecodeFile(b: seq<byte>, json: seq<byte> -> File): File {
    if |b| >= 4 && b[..4] == MAGIC then DecodeBinary(b) else json(b)
  }

  function DecodeBinary(b: seq<byte>): File {
    if |b| < 6 || b[4] != FILE_V1 then Invalid
    else
      var n := b[5] as int;
      if n < 1 || 6 + n > |b| then Invalid else File(b[6..6 + n], b[6 + n..])
  }

  /** The layout: the magic bytes, a version, the length of the nonce, the nonce and the ciphertext. */
  lemma FileLayout(nonce: seq<byte>, ct: seq<byte>)
    requires |nonce| < 256
    ensures EncodeFile(nonce, ct) == [0x53, 0x53, 0x63, 0x70, 1, |nonce| as byte] + nonce + ct
  {
  }

  /** A binary file is read exactly if it has that layout with a nonce that is not empty; other files go to the older reader. */
  lemma FileIsRead(b: seq<byte>, json: seq<byte> -> File, nonce: seq<byte>, ct: seq<byte>)
    ensures |b| >= 4 && b[..4] == [0x53, 0x53, 0x63, 0x70] ==>
              (DecodeFile(b, json) == File(nonce, ct)
               <==> 1 <= |nonce| < 256 && b == [0x53, 0x53, 0x63, 0x70, 1, |nonce| as byte] + nonce + ct)
    ensures |b| < 4 || b[..4] != [0x53, 0x53, 0x63, 0x70] ==> DecodeFile(b, json) == json(b)
  {
    if |b| >= 4 && b[..4] == [0x53, 0x53, 0x63, 0x70] {
      if DecodeFile(b, json) == File(nonce, ct) {
        var n := b[5] as int;
        assert b == b[..4] + [b[4], b[5]] + b[6..6 + n] + b[6 + n..];
      }
      if 1 <= |nonce| < 256 && b == [0x53, 0x53, 0x63, 0x70, 1, |nonce| as byte] + nonce + ct {
        assert b[4] == 1 && b[5] == |nonce| as byte && b[6..6 + |nonce|] == nonce && b[6 + |nonce|..] == ct;
      }
    }
  }

  /** A row is read column by column, four of them through their tables. */
  lemma RowIsRead(t: Tables, r: CompactRow, s: Stamped)
    ensures DecodeRow(t, r) == Some(s) <==>
            && 0 <= r.session < |t.sessions| && s.e.session == t.sessions[r.session]
            && 0 <= r.host < |t.hosts| && s.e.hostname == t.hosts[r.host]
            && 0 <= r.device < |t.devices| && s.e.device == t.devices[r.device]
            && 0 <= r.originDevice < |t.devices| && s.e.originDevice == t.devices[r.originDevice]
            && 0 <= r.shell < |t.shells| && s.e.shell == t.shells[r.shell]
            && s.e.id == r.id && s.e.command == r.command && s.e.start == r.start && s.e.end == r.end && s.e.duration == r.duration
            && s.e.exit == r.exit && s.e.cwd == r.cwd && s.e.deleted == r.deleted && s.e.originSeq == r.originSeq && s.created == r.created
  {
  }

  /** A file decodes to what was encoded exactly when the nonce has 1 to 255 bytes. */
  lemma FileRoundTripIff(nonce: seq<byte>, ct: seq<byte>, json: seq<byte> -> File)
    ensures DecodeFile(EncodeFile(nonce, ct), json) == File(nonce, ct) <==> 1 <= |nonce| <= 255
  {
    var b := EncodeFile(nonce, ct);
    assert b[..4] == MAGIC && b[4] == FILE_V1 && b[5] as int == |nonce| % 256;
    assert b[6..] == nonce + ct;
    var n := |nonce| % 256;
    if n >= 1 {
      assert b[6..6 + n] == (nonce + ct)[..n] && b[6 + n..] == (nonce + ct)[n..];
    }
  }
}
