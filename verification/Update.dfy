// The self-updater on disk: which files an update and a rollback touch, in which
// order, and what a crash in between leaves to roll back to.
module Updates {
  import opened Options
  import opened Text

  // The files concerned. A copy goes through a temporary beside its target.
  datatype Path =
    | Binary | Prev | Db | Wal | Shm | Staged | Snap(name: string)
    | Marker | Env | Attempts | LastGood | Temp(of: Path)

  lemma NotItsTemp(p: Path)
    ensures p != Temp(p)
  {
    if p.Temp? { NotItsTemp(p.of); }
  }

  type Files = map<Path, string>

  // The record an update leaves: the database snapshot taken beside the previous
  // binary, "" when there was no database.
  datatype Record = Record(from: string, to: string, snapshot: string)

  datatype Json = Json(enc: Record -> string, dec: string -> Option<Record>)

  // An encoding decodes, and no proper prefix of one does.
  ghost predicate Lawful(json: Json) {
    && (forall r :: json.dec(json.enc(r)) == Some(r))
    && forall r, t :: t < json.enc(r) ==> json.dec(t) == None
  }

  // What SQLite makes of a database file and its write-ahead log, and a standalone
  // copy of it.
  datatype Sql = Sql(view: (string, Option<string>) -> string, vacuum: (string, Option<string>) -> string)

  ghost predicate Copies(sql: Sql) {
    forall m, w :: sql.view(sql.vacuum(m, w), None) == sql.view(m, w)
  }

  function At(fs: Files, p: Path): Option<string> {
    if p in fs then Some(fs[p]) else None
  }

  ghost predicate Agree(a: Files, b: Files, but: set<Path>) {
    forall p :: p !in but ==> At(a, p) == At(b, p)
  }

  // readMarker, else readLastGood.
  function Chosen(json: Json, fs: Files): Option<Record> {
    var pending := if Marker in fs then json.dec(fs[Marker]) else None;
    if pending.Some? then pending else if LastGood in fs then json.dec(fs[LastGood]) else None
  }

  // The pair a rollback has to bring back: the binary, and the snapshot the record
  // names.
  datatype Pair = Pair(binary: string, record: Record, snapshot: string)

  predicate HasPair(fs: Files, pair: Pair) {
    && At(fs, Prev) == Some(pair.binary)
    && (pair.record.snapshot != "" ==> At(fs, Snap(pair.record.snapshot)) == Some(pair.snapshot))
  }

  // The record a rollback would follow names the pair, and the pair is there.
  predicate Anchored(json: Json, fs: Files, pair: Pair) {
    Chosen(json, fs) == Some(pair.record) && HasPair(fs, pair)
  }

  // The last-good file names the pair too, so that removing the marker is harmless.
  predicate Recorded(json: Json, fs: Files, pair: Pair) {
    && HasPair(fs, pair) && LastGood in fs && json.dec(fs[LastGood]) == Some(pair.record)
    && (Marker in fs ==> json.dec(fs[Marker]) == None || json.dec(fs[Marker]) == Some(pair.record))
  }

  lemma RecordedAnchors(json: Json, fs: Files, pair: Pair)
    requires Recorded(json, fs, pair)
    ensures Anchored(json, fs, pair)
  {
  }

  // fs2 keeps what fs records for a rollback; the marker may be gone.
  ghost predicate Kept(fs: Files, fs2: Files) {
    && At(fs2, LastGood) == At(fs, LastGood) && At(fs2, Prev) == At(fs, Prev)
    && (forall n :: At(fs2, Snap(n)) == At(fs, Snap(n)))
    && (At(fs2, Marker) == At(fs, Marker) || Marker !in fs2)
  }

  // What a marker anchors stays anchored as long as the marker is there.
  lemma KeptAnchored(json: Json, fs: Files, fs2: Files, pair: Pair)
    requires Anchored(json, fs, pair) && Kept(fs, fs2)
    ensures At(fs2, Marker) == At(fs, Marker) ==> Anchored(json, fs2, pair)
  {
  }

  lemma KeptRecorded(json: Json, fs: Files, fs2: Files, pair: Pair)
    requires Recorded(json, fs, pair) && Kept(fs, fs2)
    ensures Recorded(json, fs2, pair)
  {
  }

  ghost predicate AllKept(fs: Files, hist: seq<Files>, from: nat) {
    forall k :: from <= k < |hist| ==> Kept(fs, hist[k])
  }

  // Both halves are back; the log of the abandoned database is gone.
  predicate Restored(fs: Files, pair: Pair) {
    && At(fs, Binary) == Some(pair.binary)
    && (pair.record.snapshot != "" ==> At(fs, Db) == Some(pair.snapshot) && Wal !in fs)
  }

  // Both halves are back, the log perhaps not gone.
  predicate Returned(fs: Files, pair: Pair) {
    At(fs, Binary) == Some(pair.binary) && (pair.record.snapshot != "" ==> At(fs, Db) == Some(pair.snapshot))
  }

  // The abandoned log does not survive: there was no database to restore, its removal
  // succeeded, or there was none.
  predicate LogDropped(fs: Files, pair: Pair, logGone: bool) {
    pair.record.snapshot == "" || logGone || Wal !in fs
  }

  // What SQLite shows of the live database.
  function Seen(sql: Sql, fs: Files): Option<string> {
    if Db in fs then Some(sql.view(fs[Db], At(fs, Wal))) else None
  }

  predicate MarkedOrBack(fs: Files, fs2: Files, pair: Pair) {
    At(fs2, Marker) == At(fs, Marker) || Returned(fs2, pair)
  }

  // At no point is the new binary live without a record of the old pair.
  ghost predicate AllSafe(json: Json, hist: seq<Files>, from: nat, pair: Pair) {
    forall k :: from <= k < |hist| ==> At(hist[k], Binary) == Some(pair.binary) || Recorded(json, hist[k], pair)
  }

  // Whatever became of the last-good record: the new binary is never live without a
  // record of the old pair while the marker is there.
  ghost predicate AllMarked(json: Json, hist: seq<Files>, from: nat, pair: Pair) {
    forall k :: from <= k < |hist| ==>
      At(hist[k], Binary) == Some(pair.binary) || Marker !in hist[k] || Anchored(json, hist[k], pair)
  }

  ghost predicate AllRecorded(json: Json, hist: seq<Files>, from: nat, pair: Pair) {
    forall k :: from <= k < |hist| ==> Recorded(json, hist[k], pair)
  }

  // Every state since `from` differs from fs in these files alone.
  ghost predicate AllAgree(fs: Files, hist: seq<Files>, from: nat, but: set<Path>) {
    forall k :: from <= k < |hist| ==> Agree(fs, hist[k], but)
  }

  // ------------------------------------------------------------------ what a stop leaves ----

  // A backup or staging was begun: the previous binary may be the live one by now.
  ghost predicate OnlyBackup(fs: Files, fs2: Files, name: string) {
    && At(fs2, Marker) == At(fs, Marker) && At(fs2, LastGood) == At(fs, LastGood) && At(fs2, Binary) == At(fs, Binary)
    && (forall n :: n != name ==> At(fs2, Snap(n)) == At(fs, Snap(n)))
    && (At(fs2, Prev) == At(fs, Prev) || At(fs2, Prev) == At(fs, Binary))
  }

  ghost predicate AllBackup(fs: Files, hist: seq<Files>, from: nat, name: string) {
    forall k :: from <= k < |hist| ==> OnlyBackup(fs, hist[k], name)
  }

  // The file is as it was, or holds a beginning of the record, perhaps all of it.
  predicate Begun(json: Json, fs: Files, fs2: Files, p: Path, r: Record) {
    At(fs2, p) == At(fs, p) || (p in fs2 && fs2[p] <= json.enc(r))
  }

  // The new pair is saved; of its two records each may be missing or cut short.
  ghost predicate Saved(json: Json, fs: Files, fs2: Files, name: string, pair: Pair) {
    && HasPair(fs2, pair) && (pair.record.snapshot == name || pair.record.snapshot == "")
    && Begun(json, fs, fs2, LastGood, pair.record)
    && forall n :: n != name ==> At(fs2, Snap(n)) == At(fs, Snap(n))
  }

  const RECORDS: set<Path> := {Marker, Env, Attempts, LastGood}

  // Unprepared: stopped at the backup or the staging; `backedUp` once the previous
  // binary is replaced. Unswapped: stopped at the records or the rename.
  datatype Outcome = Unprepared(backedUp: bool) | Unswapped | Confirmed | WatchdogReverted | RolledBack | RollbackFailed

  predicate Stopped(r: Outcome) {
    r.Unprepared? || r.Unswapped?
  }

  const BINARY := "/usr/local/bin/openvtld"
  const PREV := "/usr/local/bin/openvtld.prev"
  const DB := "/var/lib/openvtld/openvtld.db"

  // The shell-sourceable twin of a marker, and what follows its last newline.
  function TwinLines(r: Record): (l: seq<string>)
    ensures |l| == 6 && l[5] == ""
  {
    ["OVTL_BINARY" + "=" + BINARY,
     "OVTL_PREV_BINARY" + "=" + PREV,
     "OVTL_DB" + "=" + DB,
     "OVTL_DB_SNAPSHOT" + "=" + r.snapshot,
     "OVTL_ATTEMPT_LIMIT" + "=" + "3",
     ""]
  }

  function Twin(r: Record): string {
    Join(TwinLines(r))
  }

  // ------------------------------------------------------------------ sourcing the twin ----

  // What a sourced file gives a variable: its last assignment.
  function Assigned(lines: seq<string>, name: string): string {
    if lines == [] then ""
    else
      var l := lines[|lines| - 1];
      if name + "=" <= l then l[|name| + 1..] else Assigned(lines[..|lines| - 1], name)
  }

  function Value(text: string, name: string): string {
    Assigned(Split(text), name)
  }

  // The file a path names; whatever is none of the configured ones is a snapshot.
  function FileAt(path: string): Path {
    if path == BINARY then Binary
    else if path == PREV then Prev
    else if path == DB then Db
    else Snap(path)
  }

  // A snapshot's path as the shell reads it back: one word in the backups directory.
  predicate PlainPath(name: string) {
    && "/var/lib/openvtld/backups/" <= name
    && forall i :: 0 <= i < |name| ==> name[i] in {'/', '.', '-', '_'} || IsLetterOrDigit(name[i])
  }

  predicate IsLetterOrDigit(c: char) {
    'a' <= c <= 'z' || 'A' <= c <= 'Z' || '0' <= c <= '9'
  }

  predicate Sourceable(r: Record) {
    r.snapshot == "" || PlainPath(r.snapshot)
  }

  // ${OVTL_ATTEMPT_LIMIT:-3}
  function Limit(v: string): nat {
    if v == "" || !Digits(v) then 3 else Number(v)
  }

  // $(cat ..) drops the final newlines; what is no number counts as none.
  function Chomp(s: string): string {
    if s != "" && s[|s| - 1] == '\n' then Chomp(s[..|s| - 1]) else s
  }

  // The starts counted so far.
  function Starts(fs: Files): nat {
    if Attempts in fs && Digits(Chomp(fs[Attempts])) then Number(Chomp(fs[Attempts])) else 0
  }

  // A pending update the watchdog will act on.
  predicate Armed(fs: Files, r: Record) {
    Marker in fs && At(fs, Env) == Some(Twin(r))
  }

  lemma TwinSplits(r: Record)
    requires OneLine(r.snapshot)
    ensures Split(Twin(r)) == TwinLines(r)
  {
    hide Split, Join;
    forall k | 0 <= k < 6 ensures OneLine(TwinLines(r)[k]) { TwinLine(r, k); }
    SplitJoin(TwinLines(r));
  }

  lemma TwinLine(r: Record, k: nat)
    requires OneLine(r.snapshot) && k < 6
    ensures OneLine(TwinLines(r)[k])
  {
    if k < 5 {
      var v := ValueOf(r, k);
      NameOneLine(k);
      PathsOneLine();
      TwinNames(r, k);
      hide NameOf, TwinLines;
      assert OneLine(NameOf(k) + "=" + v);
    }
  }

  lemma NameOneLine(k: nat)
    requires k < 5
    ensures OneLine(NameOf(k))
  {
  }

  lemma PathsOneLine()
    ensures OneLine(BINARY) && OneLine(PREV) && OneLine(DB)
  {
  }

  lemma AssignedStep(lines: seq<string>, l: string, name: string)
    ensures Assigned(lines + [l], name) == if name + "=" <= l then l[|name| + 1..] else Assigned(lines, name)
  {
    assert (lines + [l])[..|lines|] == lines;
  }

  // What the watchdog sources is what the updater meant: the two binaries, the database,
  // the record's own snapshot, and a budget of three starts.
  lemma TwinReads(r: Record)
    requires Sourceable(r)
    ensures FileAt(Value(Twin(r), "OVTL_PREV_BINARY")) == Prev && Value(Twin(r), "OVTL_PREV_BINARY") != ""
    ensures FileAt(Value(Twin(r), "OVTL_BINARY")) == Binary && Value(Twin(r), "OVTL_BINARY") != ""
    ensures FileAt(Value(Twin(r), "OVTL_DB")) == Db && Value(Twin(r), "OVTL_DB") != ""
    ensures Value(Twin(r), "OVTL_DB_SNAPSHOT") == r.snapshot
    ensures r.snapshot != "" ==> FileAt(r.snapshot) == Snap(r.snapshot)
    ensures Limit(Value(Twin(r), "OVTL_ATTEMPT_LIMIT")) == 3
  {
    hide Split, Twin;
    TwinSplits(r);
    TwinValues(r);
    SnapshotPath(r);
    assert Number("3") == 3 by { assert "3"[..0] == "" && Number("") == 0; }
  }

  lemma SnapshotPath(r: Record)
    requires Sourceable(r)
    ensures OneLine(r.snapshot) && (r.snapshot != "" ==> FileAt(r.snapshot) == Snap(r.snapshot))
  {
    if r.snapshot != "" {
      assert r.snapshot[..26] == "/var/lib/openvtld/backups/" && r.snapshot[18] == 'b' && r.snapshot[1] == 'v';
      assert DB[18] == 'o' && BINARY[1] == 'u' && PREV[1] == 'u';
    }
  }

  lemma TwinValues(r: Record)
    ensures Assigned(TwinLines(r), "OVTL_BINARY") == BINARY
    ensures Assigned(TwinLines(r), "OVTL_PREV_BINARY") == PREV
    ensures Assigned(TwinLines(r), "OVTL_DB") == DB
    ensures Assigned(TwinLines(r), "OVTL_DB_SNAPSHOT") == r.snapshot
    ensures Assigned(TwinLines(r), "OVTL_ATTEMPT_LIMIT") == "3"
  {
    hide Assigned, TwinLines;
    ReadLine(r, 0);
    ReadLine(r, 1);
    ReadLine(r, 2);
    ReadLine(r, 3);
    ReadLine(r, 4);
  }

  // The name of each line.
  function NameOf(k: nat): string
    requires k < 5
  {
    if k == 0 then "OVTL_BINARY"
    else if k == 1 then "OVTL_PREV_BINARY"
    else if k == 2 then "OVTL_DB"
    else if k == 3 then "OVTL_DB_SNAPSHOT"
    else "OVTL_ATTEMPT_LIMIT"
  }

  function ValueOf(r: Record, k: nat): string
    requires k < 5
  {
    if k == 0 then BINARY else if k == 1 then PREV else if k == 2 then DB else if k == 3 then r.snapshot else "3"
  }

  lemma TwinNames(r: Record, k: nat)
    requires k < 5
    ensures TwinLines(r)[k] == NameOf(k) + "=" + ValueOf(r, k)
  {
  }

  // No line assigns another's name: they differ at their sixth character, or at the
  // eighth.
  lemma OtherName(r: Record, j: nat, k: nat)
    requires j < 5 && k < 5 && j != k
    ensures !(NameOf(k) + "=" <= TwinLines(r)[j])
  {
    var key, l := NameOf(k) + "=", TwinLines(r)[j];
    assert key[5] != l[5] || key[7] != l[7];
  }

  lemma ReadLine(r: Record, k: nat)
    requires k < 5
    ensures Assigned(TwinLines(r), NameOf(k)) == ValueOf(r, k)
  {
    hide NameOf, ValueOf, TwinLines, Assigned;
    ReadFrom(r, k, 5);
    var l := TwinLines(r);
    assert l[..5] + [""] == l;
    AssignedStep(l[..5], "", NameOf(k));
  }

  lemma {:induction false} ReadFrom(r: Record, k: nat, n: nat)
    requires k < n <= 5
    ensures Assigned(TwinLines(r)[..n], NameOf(k)) == ValueOf(r, k)
    decreases n
  {
    hide NameOf, ValueOf, TwinLines, Assigned;
    var l := TwinLines(r);
    AssignedStep(l[..n - 1], l[n - 1], NameOf(k));
    assert l[..n - 1] + [l[n - 1]] == l[..n];
    TwinNames(r, k);
    if n - 1 > k {
      OtherName(r, n - 1, k);
      ReadFrom(r, k, n - 1);
    } else {
      Behind(NameOf(k) + "=", ValueOf(r, k));
    }
  }

  lemma Behind(a: string, b: string)
    ensures a <= a + b && (a + b)[|a|..] == b
  {
  }

  lemma CountReads(n: nat)
    ensures forall fs :: At(fs, Attempts) == Some(Decimal(n) + "\n") ==> Starts(fs) == n
  {
    hide Decimal, Number;
    var s := Decimal(n) + "\n";
    assert s[..|s| - 1] == Decimal(n) && IsDigit(Decimal(n)[|Decimal(n)| - 1]);
    assert Chomp(Decimal(n)) == Decimal(n);
    NumberDecimal(n);
    forall fs | At(fs, Attempts) == Some(s) ensures Starts(fs) == n {
      assert fs[Attempts] == s;
    }
  }

  lemma NoStarts(fs: Files)
    requires At(fs, Attempts) == Some("0\n")
    ensures Starts(fs) == 0
  {
    assert Decimal(0) == "0" && "0" + "\n" == "0\n";
    CountReads(0);
  }

  class Disk {
    const ver: string -> string   // the version a binary reports
    var files: Files
    var running: Option<string>   // the binary the answering process was started from
    // Every state a crash could leave behind, the last one the present.
    var hist: seq<Files>
    ghost var faults: nat   // operations that failed with nothing against them

    ghost predicate Valid()
      reads this
    {
      hist != [] && hist[|hist| - 1] == files
    }

    constructor (ver: string -> string, initial: Files, running: Option<string>)
      ensures Valid() && this.ver == ver && files == initial && this.running == running && hist == [initial]
      ensures faults == 0
    {
      this.ver, files, this.running, hist, faults := ver, initial, running, [initial], 0;
    }

    // -------------------------------------------------------------- single effects ----

    // Anything else that may fail: an open, a sync, a command.
    method Io() returns (ok: bool)
      modifies this`faults
      ensures faults == old(faults) + (if ok then 0 else 1)
    {
      ok := *;
      if !ok { faults := faults + 1; }
    }

    method Put(p: Path, content: string)
      requires Valid()
      modifies this`files, this`hist
      ensures Valid() && files == old(files)[p := content] && hist == old(hist) + [files]
    {
      files := files[p := content];
      hist := hist + [files];
    }

    method Remove(p: Path) returns (ok: bool)
      requires Valid()
      modifies this`files, this`hist, this`faults
      ensures Valid() && files == (if ok then old(files) - {p} else old(files)) && hist == old(hist) + [files]
      ensures faults == old(faults) + (if ok then 0 else 1)
    {
      ok := Io();
      if ok { files := files - {p}; }
      hist := hist + [files];
    }

    method Rename(from: Path, to: Path) returns (ok: bool)
      requires Valid()
      modifies this`files, this`hist, this`faults
      ensures Valid() && (ok ==> from in old(files) && files == (old(files) - {from})[to := old(files)[from]])
      ensures !ok ==> files == old(files)
      ensures hist == old(hist) + [files]
      ensures faults >= old(faults) && (faults == old(faults) ==> (ok <==> from in old(files)))
    {
      ok := Io();
      if from !in files { ok := false; }
      if ok { files := (files - {from})[to := files[from]]; }
      hist := hist + [files];
    }

    // os.WriteFile: truncates first, so a failure or crash may leave any beginning.
    method WriteFile(p: Path, content: string) returns (ok: bool)
      requires Valid()
      modifies this`files, this`hist, this`faults
      ensures Valid() && old(hist) <= hist && AllAgree(old(files), hist, |old(hist)|, {p})
      ensures Agree(old(files), files, {p}) && (ok ==> files == old(files)[p := content])
      ensures files == old(files) || (p in files && files[p] <= content)
      ensures faults >= old(faults) && (faults == old(faults) ==> ok)
    {
      ok := Io();
      if !ok { return; }
      var n: nat := *;
      Put(p, if 0 <= n < |content| then content[..n] else content);
      ok := Io();
      if ok { Put(p, content); }
    }

    // copyFile up to the rename: the temporary is written and synced, or removed.
    method WriteTemp(content: string, dst: Path) returns (ok: bool)
      requires Valid()
      modifies this`files, this`hist, this`faults
      ensures Valid() && old(hist) <= hist && AllAgree(old(files), hist, |old(hist)|, {Temp(dst)})
      ensures Agree(old(files), files, {Temp(dst)}) && (ok ==> At(files, Temp(dst)) == Some(content))
      ensures faults >= old(faults) && (faults == old(faults) ==> ok)
    {
      ok := WriteFile(Temp(dst), content);
      var synced := Io();
      ok := ok && synced;
      if !ok { var gone := Remove(Temp(dst)); }
    }

    // copyFile: the target is the old file or the whole new one.
    method CopyIn(content: string, dst: Path) returns (ok: bool)
      requires Valid()
      modifies this`files, this`hist, this`faults
      ensures Valid() && old(hist) <= hist
      ensures forall k :: |old(hist)| <= k < |hist| ==>
                && Agree(old(files), hist[k], {dst, Temp(dst)})
                && (At(hist[k], dst) == At(old(files), dst) || At(hist[k], dst) == Some(content))
      ensures Agree(old(files), files, {dst, Temp(dst)})
      ensures At(files, dst) == if ok then Some(content) else At(old(files), dst)
      ensures faults >= old(faults) && (faults == old(faults) ==> ok)
    {
      ok := WriteTemp(content, dst);
      NotItsTemp(dst);
      assert At(files, dst) == At(old(files), dst);
      assert forall k :: |old(hist)| <= k < |hist| ==> At(hist[k], dst) == At(old(files), dst);
      if !ok { return; }
      ok := Rename(Temp(dst), dst);
    }

    method CopyFile(src: Path, dst: Path) returns (ok: bool)
      requires Valid()
      modifies this`files, this`hist, this`faults
      ensures Valid() && old(hist) <= hist
      ensures ok ==> src in old(files)
      ensures forall k :: |old(hist)| <= k < |hist| ==>
                && Agree(old(files), hist[k], {dst, Temp(dst)})
                && (At(hist[k], dst) == At(old(files), dst) || At(hist[k], dst) == At(old(files), src))
      ensures Agree(old(files), files, {dst, Temp(dst)})
      ensures At(files, dst) == At(old(files), if ok then src else dst)
      ensures faults >= old(faults) && (faults == old(faults) ==> (ok <==> src in old(files)))
    {
      if src !in files { return false; }
      ok := CopyIn(files[src], dst);
    }

    // VACUUM INTO refuses a target that is there.
    method VacuumInto(name: string, content: string) returns (ok: bool)
      requires Valid()
      modifies this`files, this`hist, this`faults
      ensures Valid() && old(hist) <= hist && AllAgree(old(files), hist, |old(hist)|, {Snap(name)})
      ensures Agree(old(files), files, {Snap(name)}) && (ok ==> files == old(files)[Snap(name) := content])
      ensures faults >= old(faults) && (faults == old(faults) ==> (ok <==> Snap(name) !in old(files)))
    {
      if Snap(name) in files { return false; }
      ok := WriteFile(Snap(name), content);
    }

    // snapshotDB: remove any file of that name, VACUUM INTO it.
    method SnapshotDB(sql: Sql, name: string) returns (ok: bool)
      requires Valid() && Db in files
      modifies this`files, this`hist, this`faults
      ensures Valid() && old(hist) <= hist && AllAgree(old(files), hist, |old(hist)|, {Snap(name)})
      ensures Agree(old(files), files, {Snap(name)})
      ensures ok ==> At(files, Snap(name)) == Some(sql.vacuum(old(files)[Db], At(old(files), Wal)))
      ensures faults >= old(faults) && (faults == old(faults) ==> ok)
    {
      var gone := Remove(Snap(name));
      ok := VacuumInto(name, sql.vacuum(files[Db], At(files, Wal)));
    }

    // ----------------------------------------------------------------- the records ----

    method WriteMarker(json: Json, r: Record) returns (ok: bool)
      requires Valid()
      modifies this`files, this`hist, this`faults
      ensures Valid() && old(hist) <= hist && AllAgree(old(files), hist, |old(hist)|, RECORDS - {LastGood})
      ensures Agree(old(files), files, RECORDS - {LastGood})
      ensures ok ==>
                && At(files, Marker) == Some(json.enc(r))
                && At(files, Env) == Some(Twin(r)) && At(files, Attempts) == Some("0\n")
      ensures Begun(json, old(files), files, Marker, r)
      ensures faults >= old(faults) && (faults == old(faults) ==> ok)
    {
      hide Twin;
      ok := WriteFile(Marker, json.enc(r));
      if !ok { return; }
      ok := WriteFile(Env, Twin(r));
      if !ok { return; }
      ok := WriteFile(Attempts, "0\n");
    }

    method ClearMarker()
      requires Valid()
      modifies this`files, this`hist, this`faults
      ensures Valid() && old(hist) < hist && AllAgree(old(files), hist, |old(hist)|, RECORDS - {LastGood})
      ensures Agree(old(files), files, RECORDS - {LastGood})
      ensures forall k :: |old(hist)| <= k < |hist| ==>
                At(hist[k], Marker) == At(old(files), Marker) || Marker !in hist[k]
      ensures At(files, Marker) == At(old(files), Marker) || Marker !in files
      ensures faults >= old(faults)
      ensures (faults == old(faults) ==> Marker !in files && Env !in files && Attempts !in files)
    {
      var a := Remove(Marker);
      var b := Remove(Env);
      var c := Remove(Attempts);
    }

    // -------------------------------------------------------------------- rollback ----

    // restoreDB: the removals of the log files are not checked.
    method RestoreDB(name: string) returns (ok: bool, ghost logGone: bool)
      requires Valid() && name != ""
      modifies this`files, this`hist, this`faults
      ensures Valid() && old(hist) <= hist && AllAgree(old(files), hist, |old(hist)|, {Db, Temp(Db), Wal, Shm})
      ensures Agree(old(files), files, {Db, Temp(Db), Wal, Shm})
      ensures ok ==> Snap(name) in old(files) && At(files, Db) == At(old(files), Snap(name))
      ensures ok && logGone ==> Wal !in files
      ensures ok && faults == old(faults) ==> Shm !in files
      ensures ok && !logGone ==> At(files, Wal) == At(old(files), Wal)
      ensures faults >= old(faults) && (faults == old(faults) ==> logGone == ok == (Snap(name) in old(files)))
    {
      logGone := false;
      ok := CopyFile(Snap(name), Db);
      if !ok { return; }
      var gone := Remove(Wal);
      logGone := gone;
      gone := Remove(Shm);
    }

    // systemctl restart, whose error is only logged. When it takes effect, whatever
    // binary is there starts, `able` or not, and may rewrite the database. When it does
    // not, the process that ran before still answers, or nothing does.
    method Restart(able: bool) returns (took: bool)
      requires Valid()
      modifies this
      ensures Valid() && old(hist) <= hist && AllAgree(old(files), hist, |old(hist)|, {Db, Wal, Shm})
      ensures Agree(old(files), files, {Db, Wal, Shm})
      ensures took ==> running == if able then At(old(files), Binary) else None
      ensures !took ==> files == old(files) && (running == old(running) || running.None?)
      ensures faults == old(faults) + (if took then 0 else 1)
    {
      took := Io();
      if took {
        running := if able then At(files, Binary) else None;
        var db: string, wal: string := *, *;
        Put(Db, db);
        Put(Wal, wal);
      } else {
        var gone: bool := *;
        if gone { running := None; }
      }
    }

    // The copies and removals of a rollback.
    method RestorePair(ghost pair: Pair, snapshot: string) returns (ok: bool, ghost logGone: bool)
      requires Valid() && HasPair(files, pair) && snapshot == pair.record.snapshot
      modifies this`files, this`hist, this`faults
      ensures Valid() && old(hist) <= hist && AllKept(old(files), hist, |old(hist)|) && Kept(old(files), files)
      ensures forall k :: |old(hist)| <= k < |hist| ==> At(hist[k], Marker) == At(old(files), Marker)
      ensures ok ==> Returned(files, pair)
      ensures ok ==> (Restored(files, pair) <==> LogDropped(old(files), pair, logGone))
      ensures faults >= old(faults) && (faults == old(faults) ==> ok && logGone)
    {
      logGone := true;
      ok := CopyFile(Prev, Binary);
      if !ok { return; }
      if snapshot != "" {
        ok, logGone := RestoreDB(snapshot);
      }
    }

    // rollbackNow. `at` is the state the restart finds: the pair is back there, and whole
    // exactly when the log did not survive. Any answering process passes for success;
    // when the restart took effect it is the old binary.
    method RollbackNow(ghost pair: Pair, snapshot: string)
      returns (ok: bool, ghost at: nat, ghost logGone: bool, ghost took: bool)
      requires Valid() && HasPair(files, pair) && snapshot == pair.record.snapshot
      modifies this
      ensures Valid() && old(hist) <= hist && AllKept(old(files), hist, |old(hist)|) && Kept(old(files), files)
      ensures |old(hist)| <= at + 1 <= |hist| && forall k :: |old(hist)| <= k <= at ==>
                MarkedOrBack(old(files), hist[k], pair)
      ensures ok ==> |old(hist)| <= at < |hist| && Returned(hist[at], pair)
      ensures ok ==> (Restored(hist[at], pair) <==> LogDropped(old(files), pair, logGone))
      ensures ok ==> running == (if took then Some(pair.binary) else old(running)) && running.Some?
      ensures faults >= old(faults) && (faults == old(faults) ==> ok && logGone && took)
    {
      hide AllAgree, Agree, Kept, AllKept, Returned, Restored, LogDropped;
      took := false;
      ghost var fs0, n0 := files, |hist|;
      ok, logGone := RestorePair(pair, snapshot);
      at := |hist| - 1;
      if !ok { return; }
      ghost var fs1, n1, hist1 := files, |hist|, hist;
      ClearMarker();
      at := |hist| - 1;
      BackStays(fs1, files, RECORDS - {LastGood}, pair);
      AllBack(fs1, hist, n1, RECORDS - {LastGood}, pair);
      assert forall k :: n0 <= k < n1 ==> hist[k] == hist1[k];
      AgreeKept(fs1, files, hist, n1, RECORDS - {LastGood});
      AllKeptPrefix(fs0, hist1, hist, n0, n1);
      KeptOn(fs0, fs1, files, hist, n0, n1);
      ghost var fs2, n2, hist2 := files, |hist|, hist;
      BackBinary(fs2, pair);
      ok, took := Bounce(pair.binary);
      AgreeKept(fs2, files, hist, n2, {Db, Wal, Shm});
      AllKeptPrefix(fs0, hist2, hist, n0, n2);
      KeptOn(fs0, fs2, files, hist, n0, n2);
      assert forall k :: n0 <= k <= at ==> hist[k] == hist2[k];
    }

    // The restart of a rollback: any answer will do.
    method Bounce(ghost binary: string) returns (ok: bool, ghost took: bool)
      requires Valid() && At(files, Binary) == Some(binary)
      modifies this
      ensures Valid() && old(hist) <= hist && AllAgree(old(files), hist, |old(hist)|, {Db, Wal, Shm})
      ensures Agree(old(files), files, {Db, Wal, Shm})
      ensures ok ==> running == (if took then Some(binary) else old(running)) && running.Some?
      ensures faults >= old(faults) && (faults == old(faults) ==> ok && took)
    {
      var able := Io();   // the old binary comes up
      var effective := Restart(able);
      took := effective;
      var heard := Io();
      ok := running.Some? && heard;
    }

    // Rollback by hand: it follows the marker, else the last-good record. Up to the
    // restart every state still anchors the pair or has it back already; when the
    // last-good record names the pair too, that goes for every state, so an
    // interrupted rollback can be run again. A finished one found the pair whole exactly
    // when the abandoned log did not survive.
    method Rollback(json: Json, ghost pair: Pair)
      returns (ok: bool, ghost at: nat, ghost logGone: bool, ghost took: bool)
      requires Valid() && Anchored(json, files, pair)
      modifies this
      ensures Valid() && old(hist) <= hist
      ensures |old(hist)| <= at + 1 <= |hist|
      ensures forall k :: |old(hist)| <= k <= at ==> Anchored(json, hist[k], pair) || Returned(hist[k], pair)
      ensures old(Recorded(json, files, pair)) ==>
                AllRecorded(json, hist, |old(hist)|, pair) && Recorded(json, files, pair)
      ensures ok ==> |old(hist)| <= at && Returned(hist[at], pair)
      ensures ok ==> (Restored(hist[at], pair) <==> LogDropped(old(files), pair, logGone))
      ensures ok ==> running == (if took then Some(pair.binary) else old(running)) && running.Some?
      ensures faults >= old(faults) && (faults == old(faults) ==> ok && logGone && took)
    {
      hide Recorded, Returned, Restored, Kept, LogDropped;
      var r := Chosen(json, files);
      ghost var fs0, n0 := files, |hist|;
      ok, at, logGone, took := RollbackNow(pair, r.value.snapshot);
      if Recorded(json, fs0, pair) {
        AllKeptRecorded(json, fs0, hist, n0, pair);
        KeptRecorded(json, fs0, files, pair);
      }
      AllKeptAnchored(json, fs0, hist, n0, at, pair);
    }

    // ----------------------------------------------------------------------- apply ----

    // The previous binary and the database snapshot.
    method Backup(sql: Sql, name: string) returns (ok: bool, snap: string, backedUp: bool)
      requires Valid() && name != ""
      modifies this`files, this`hist, this`faults
      ensures Valid() && old(hist) <= hist && AllBackup(old(files), hist, |old(hist)|, name)
      ensures Agree(old(files), files, {Prev, Temp(Prev), Snap(name)})
      ensures At(files, Prev) == At(old(files), if backedUp then Binary else Prev)
      ensures (backedUp ==> Binary in old(files))
      ensures ok ==> backedUp && snap == (if Db in old(files) then name else "")
      ensures ok && Db in old(files) ==> At(files, Snap(name)) == Some(sql.vacuum(old(files)[Db], At(old(files), Wal)))
      ensures faults >= old(faults) && (faults == old(faults) ==> (ok <==> Binary in old(files)))
    {
      snap := "";
      ghost var n0 := |hist|;
      ok := CopyFile(Binary, Prev);
      backedUp := ok;
      assert AllBackup(old(files), hist, n0, name);
      if !ok { return; }
      ghost var mid, hist1 := files, hist;
      assert At(files, Db) == At(old(files), Db) && At(files, Wal) == At(old(files), Wal);
      if Db in files {
        snap := name;
        ok := SnapshotDB(sql, name);
        OnBackup(old(files), mid, hist1, hist, n0, name);
      }
    }

    // The new binary beside the live one; it must report the version of the bundle.
    method StageBinary(newBinary: string, to: string) returns (ok: bool)
      requires Valid()
      modifies this`files, this`hist, this`faults
      ensures Valid() && old(hist) <= hist && AllAgree(old(files), hist, |old(hist)|, {Staged, Temp(Staged)})
      ensures Agree(old(files), files, {Staged, Temp(Staged)})
      ensures ok ==> At(files, Staged) == Some(newBinary) && ver(newBinary) == to
      ensures faults >= old(faults) && (faults == old(faults) && ver(newBinary) == to ==> ok)
    {
      ok := CopyIn(newBinary, Staged);
      if !ok { return; }
      ok := Io();
      ok := ok && ver(newBinary) == to;
      if !ok { var gone := Remove(Staged); }
    }

    // Backup and staging: nothing the running system or a rollback record depends on
    // but the previous-binary file.
    method Prepare(sql: Sql, name: string, newBinary: string, to: string)
      returns (ok: bool, snap: string, backedUp: bool)
      requires Valid() && name != ""
      modifies this`files, this`hist, this`faults
      ensures Valid() && old(hist) <= hist && AllBackup(old(files), hist, |old(hist)|, name)
      ensures OnlyBackup(old(files), files, name)
      ensures At(files, Prev) == At(old(files), if backedUp then Binary else Prev)
      ensures (backedUp ==> Binary in old(files))
      ensures ok ==> backedUp && At(files, Staged) == Some(newBinary) && ver(newBinary) == to
      ensures ok ==> snap == (if Db in old(files) then name else "")
      ensures ok && Db in old(files) ==> At(files, Snap(name)) == Some(sql.vacuum(old(files)[Db], At(old(files), Wal)))
      ensures faults >= old(faults)
      ensures (faults == old(faults) && ver(newBinary) == to ==> (ok <==> Binary in old(files)))
    {
      ghost var n0 := |hist|;
      ok, snap, backedUp := Backup(sql, name);
      if !ok { return; }
      ghost var mid, hist1 := files, hist;
      ok := StageBinary(newBinary, to);
      OnBackup(old(files), mid, hist1, hist, n0, name);
      assert At(files, Prev) == At(mid, Prev) && At(files, Snap(name)) == At(mid, Snap(name));
    }

    // The watchdog's restore: plain copies whose failures it ignores, between the files
    // it was told of.
    method CopyBack(ghost pair: Pair, src: Path, dst: Path, db: Path, snap: Path, keeps: bool)
      returns (whole: bool)
      requires Valid() && HasPair(files, pair) && src == Prev && dst == Binary && db == Db
      requires if keeps then snap == Snap(pair.record.snapshot) else pair.record.snapshot == ""
      modifies this`files, this`hist, this`faults
      ensures Valid() && old(hist) <= hist && AllAgree(old(files), hist, |old(hist)|, {Binary, Db, Wal, Shm})
      ensures Agree(old(files), files, {Binary, Db, Wal, Shm}) && faults >= old(faults)
      ensures whole ==> At(files, Binary) == Some(pair.binary)
      ensures faults == old(faults) ==>
                && whole && At(files, Binary) == Some(pair.binary)
                && (pair.record.snapshot != "" ==> At(files, Db) == Some(pair.snapshot) && Wal !in files)
    {
      whole := WriteFile(dst, files[src]);
      ghost var mid := files;
      if keeps && snap in files {
        CopyDbBack(files[snap]);
        assert At(files, Binary) == At(mid, Binary);
      }
    }

    method CopyDbBack(content: string)
      requires Valid()
      modifies this`files, this`hist, this`faults
      ensures Valid() && old(hist) <= hist && AllAgree(old(files), hist, |old(hist)|, {Db, Wal, Shm})
      ensures Agree(old(files), files, {Db, Wal, Shm}) && faults >= old(faults)
      ensures faults == old(faults) ==> At(files, Db) == Some(content) && Wal !in files && Shm !in files
    {
      var ok := WriteFile(Db, content);
      var gone := Remove(Wal);
      gone := Remove(Shm);
    }

    // One run of the watchdog script, before a start: without a pending update nothing;
    // else the twin is sourced and the start counted, and past the limit the pair it
    // names is copied back.
    method CountStart(ghost pair: Pair) returns (ran: bool, whole: bool)
      requires Valid() && HasPair(files, pair) && Sourceable(pair.record)
      requires Env in files ==> files[Env] == Twin(pair.record)
      modifies this`files, this`hist, this`faults
      ensures Valid() && old(hist) <= hist && AllKept(old(files), hist, |old(hist)|) && Kept(old(files), files)
      ensures ran <==> Marker in old(files) && Env in old(files) && Starts(old(files)) >= 3
      ensures !ran ==> Agree(old(files), files, {Attempts})
      ensures ran && whole ==> At(files, Binary) == Some(pair.binary)
      ensures faults >= old(faults) && (faults == old(faults) && ran ==> whole && Restored(files, pair))
      ensures faults == old(faults) && !ran && Marker in files && Env in files ==>
                Starts(files) == Starts(old(files)) + 1
    {
      hide AllAgree, Agree, Kept, AllKept, Twin, Value, FileAt, Sourceable, Restored;
      ghost var fs0, n0 := files, |hist|;
      ran, whole := false, false;
      if Marker !in files || Env !in files {
        KeptSelf(files, hist, |hist|);
        AgreeSelf(files, {Attempts});
        return;
      }
      TwinReads(pair.record);
      var binary, prev := Value(files[Env], "OVTL_BINARY"), Value(files[Env], "OVTL_PREV_BINARY");
      var db, snap := Value(files[Env], "OVTL_DB"), Value(files[Env], "OVTL_DB_SNAPSHOT");
      var limit := Limit(Value(files[Env], "OVTL_ATTEMPT_LIMIT"));
      var n := Starts(files) + 1;
      var counted := WriteFile(Attempts, Decimal(n) + "\n");
      AttemptsOnly(fs0, files, hist, n0);
      if counted { CountReads(n); }
      if binary == "" || prev == "" || db == "" || n <= limit {
        return;
      }
      ghost var fs1, n1, hist1 := files, |hist|, hist;
      KeptPair(fs0, files, pair);
      ran := true;
      whole := Revert(pair, FileAt(prev), FileAt(binary), FileAt(db), FileAt(snap), snap != "");
      AllKeptPrefix(fs0, hist1, hist, n0, n1);
      KeptOn(fs0, fs1, files, hist, n0, n1);
    }

    // Past the limit: the pair copied back, the marker removed.
    method Revert(ghost pair: Pair, src: Path, dst: Path, db: Path, snap: Path, keeps: bool) returns (whole: bool)
      requires Valid() && HasPair(files, pair) && src == Prev && dst == Binary && db == Db
      requires if keeps then snap == Snap(pair.record.snapshot) else pair.record.snapshot == ""
      modifies this`files, this`hist, this`faults
      ensures Valid() && old(hist) <= hist && AllKept(old(files), hist, |old(hist)|) && Kept(old(files), files)
      ensures whole ==> At(files, Binary) == Some(pair.binary)
      ensures faults >= old(faults) && (faults == old(faults) ==> whole && Restored(files, pair))
    {
      hide AllAgree, Agree, Kept, AllKept;
      ghost var fs0, n0 := files, |hist|;
      whole := CopyBack(pair, src, dst, db, snap, keeps);
      AgreeKept(fs0, files, hist, n0, {Binary, Db, Wal, Shm});
      ghost var fs1, n1, hist1 := files, |hist|, hist;
      ClearMarker();
      BackStays(fs1, files, RECORDS - {LastGood}, pair);
      BinaryStays(fs1, files, RECORDS - {LastGood});
      AgreeKept(fs1, files, hist, n1, RECORDS - {LastGood});
      AllKeptPrefix(fs0, hist1, hist, n0, n1);
      KeptOn(fs0, fs1, files, hist, n0, n1);
    }

    // The further starts of a binary that does not come up: each may rewrite the database,
    // until the watchdog reverts and the old binary is started, or systemd gives up. A
    // binary copied back in part does not come up. `starts` counts the script's runs:
    // with nothing failing it reverts at the run the counter asks for, and no sooner.
    method Watchdog(ghost pair: Pair) returns (ran: bool, ghost starts: nat)
      requires Valid() && HasPair(files, pair) && Sourceable(pair.record) && Armed(files, pair.record)
      modifies this
      ensures Valid() && old(hist) <= hist && AllKept(old(files), hist, |old(hist)|) && Kept(old(files), files)
      ensures !ran ==> Agree(old(files), files, {Attempts, Db, Wal}) && running.None?
      ensures ran ==> running.None? || (running == Some(pair.binary) && At(files, Binary) == Some(pair.binary))
      ensures faults >= old(faults) && (faults == old(faults) && ran ==> running == Some(pair.binary))
      ensures faults == old(faults) && Starts(old(files)) <= 3 ==>
                && (ran ==> Restored(files, pair) && Starts(old(files)) + starts == 4)
                && (!ran ==> Starts(old(files)) + starts <= 3)
    {
      hide AllAgree, Agree, Kept, AllKept, Twin, Sourceable, Restored, HasPair;
      ghost var fs0, n0 := files, |hist|;
      running, ran, starts := None, false, 0;
      KeptSelf(files, hist, |hist|);
      AgreeSelf(files, {Attempts, Db, Wal});
      var more: nat := *;
      while more > 0
        invariant Valid() && !ran && running.None? && faults >= old(faults) && n0 <= |hist| && old(hist) <= hist
        invariant Kept(fs0, files) && AllKept(fs0, hist, n0) && Agree(fs0, files, {Attempts, Db, Wal})
        invariant HasPair(files, pair) && Armed(files, pair.record)
        invariant faults == old(faults) && Starts(fs0) <= 3 ==> Starts(files) == Starts(fs0) + starts <= 3
        decreases more
      {
        ghost var fs1, n1, hist1 := files, |hist|, hist;
        var whole;
        ran, whole := CountStart(pair);
        starts := starts + 1;
        AllKeptPrefix(fs0, hist1, hist, n0, n1);
        KeptOn(fs0, fs1, files, hist, n0, n1);
        if ran {
          var able := Io();
          if able && whole { running := At(files, Binary); }
          return;
        }
        StillArmed(fs1, files, pair.record);
        KeptPair(fs0, files, pair);
        AgreeTwice(fs0, fs1, files, {Attempts, Db, Wal}, {Attempts});
        ghost var fs2, n2, hist2 := files, |hist|, hist;
        FailedStart(pair);
        AgreeTwice(fs0, fs2, files, {Attempts, Db, Wal}, {Db, Wal});
        AllKeptPrefix(fs0, hist2, hist, n0, n2);
        KeptOn(fs0, fs2, files, hist, n0, n2);
        more := more - 1;
      }
    }
    // A start that comes to nothing; the binary may have rewritten the database first.
    method FailedStart(ghost pair: Pair)
      requires Valid() && HasPair(files, pair) && Armed(files, pair.record)
      modifies this`files, this`hist
      ensures Valid() && old(hist) <= hist && AllKept(old(files), hist, |old(hist)|) && Kept(old(files), files)
      ensures Agree(old(files), files, {Db, Wal}) && HasPair(files, pair) && Armed(files, pair.record)
      ensures Starts(files) == Starts(old(files))
    {
      var db: string, wal: string := *, *;
      Put(Db, db);
      Put(Wal, wal);
    }

    // The restart and what systemd makes of it; the watchdog script runs before every
    // start, the restart's own included. `took`: the restart took effect. With nothing
    // failing the script reverts at the fourth start, and then the pair is back whole.
    method Launch(ghost pair: Pair, healthy: bool) returns (ghost took: bool, ghost ran: bool, ghost starts: nat)
      requires Valid() && HasPair(files, pair) && Sourceable(pair.record)
      requires Armed(files, pair.record) && Starts(files) == 0
      modifies this
      ensures Valid() && old(hist) <= hist && AllKept(old(files), hist, |old(hist)|) && Kept(old(files), files)
      ensures !ran ==> At(files, Binary) == At(old(files), Binary)
      ensures ran ==>
                && took && !healthy
                && (running.None? || (running == Some(pair.binary) && At(files, Binary) == Some(pair.binary)))
      ensures took && !ran ==> running == if healthy then At(files, Binary) else None
      ensures !took ==> running == old(running) || running.None?
      ensures faults >= old(faults) && (faults == old(faults) ==> took && (ran ==> running == Some(pair.binary)))
      ensures faults == old(faults) ==> 1 <= starts <= 4 && (ran <==> starts == 4) && (ran ==> Restored(files, pair))
    {
      hide AllAgree, Agree, Kept, AllKept, HasPair, Twin, Sourceable, Restored;
      ghost var fs0, n0 := files, |hist|;
      starts := 1;
      var early, part := CountStart(pair);
      ghost var fs1, n1, hist1 := files, |hist|, hist;
      KeptPair(fs0, files, pair);
      StillArmed(fs0, files, pair.record);
      BinaryStays(fs0, files, {Attempts});
      var effective := Restart(healthy);
      took, ran := effective, false;
      AgreeBinary(fs1, files, hist, n1, {Db, Wal, Shm});
      AgreeKept(fs1, files, hist, n1, {Db, Wal, Shm});
      AllKeptPrefix(fs0, hist1, hist, n0, n1);
      KeptOn(fs0, fs1, files, hist, n0, n1);
      KeptPair(fs0, files, pair);
      SameRecords(fs1, files, pair.record);
      if effective && !healthy {
        ghost var fs2, n2, hist2 := files, |hist|, hist;
        ghost var further;
        var reverted;
        reverted, further := Watchdog(pair);
        ran, starts := reverted, 1 + further;
        if !ran { BinaryStays(fs2, files, {Attempts, Db, Wal}); }
        AllKeptPrefix(fs0, hist2, hist, n0, n2);
        KeptOn(fs0, fs2, files, hist, n0, n2);
      }
    }

    // What to make of the answers: confirm the version waited for, take an answer of
    // the old version for the watchdog's revert, or roll back.
    method Decide(ghost pair: Pair, snapshot: string, from: string, to: string) returns (r: Outcome)
      requires Valid() && HasPair(files, pair) && snapshot == pair.record.snapshot
      modifies this
      ensures Valid() && old(hist) <= hist && AllKept(old(files), hist, |old(hist)|) && Kept(old(files), files)
      ensures !Stopped(r)
      ensures r == Confirmed ==> old(running).Some? && ver(old(running).value) == to
      ensures r == WatchdogReverted ==> old(running).Some? && ver(old(running).value) == from
      ensures r == Confirmed || r == WatchdogReverted ==>
                At(files, Binary) == At(old(files), Binary) && running == old(running)
      ensures r == RolledBack ==> exists k :: |old(hist)| <= k < |hist| && Returned(hist[k], pair)
      ensures faults >= old(faults)
      ensures faults == old(faults) ==>
                && (r == Confirmed <==> old(running).Some? && ver(old(running).value) == to)
                && r != RollbackFailed && (r == Confirmed ==> Marker !in files)
    {
      hide AllAgree, Agree, Returned, Restored, Kept, AllKept, HasPair;
      ghost var fs0, n0 := files, |hist|;
      var heard := Io();
      if running.Some? && ver(running.value) == to && heard {
        r := Confirmed;
        ClearMarker();
        AgreeBinary(fs0, files, hist, n0, RECORDS - {LastGood});
        AgreeKept(fs0, files, hist, n0, RECORDS - {LastGood});
        return;
      }
      heard := Io();
      if running.Some? && ver(running.value) == from && heard {
        r := WatchdogReverted;
        ClearMarker();
        AgreeBinary(fs0, files, hist, n0, RECORDS - {LastGood});
        AgreeKept(fs0, files, hist, n0, RECORDS - {LastGood});
        return;
      }
      var ok; ghost var at, logGone, took;
      ok, at, logGone, took := RollbackNow(pair, snapshot);
      r := if ok then RolledBack else RollbackFailed;
    }

    // Apply after the swap: restart, then the verdict.
    method Settle(ghost pair: Pair, snapshot: string, from: string, to: string, healthy: bool)
      returns (r: Outcome, ghost took: bool)
      requires Valid() && HasPair(files, pair) && snapshot == pair.record.snapshot && Binary in files
      requires Sourceable(pair.record) && Armed(files, pair.record) && Starts(files) == 0
      requires ver(files[Binary]) == to
      modifies this
      ensures Valid() && old(hist) <= hist && AllKept(old(files), hist, |old(hist)|) && Kept(old(files), files)
      ensures !Stopped(r)
      ensures r == Confirmed ==> running.Some? && ver(running.value) == to
      ensures (r == Confirmed && ver(pair.binary) != to && (old(running).Some? ==> ver(old(running).value) != to)) ==>
                took && healthy && running == At(files, Binary) == At(old(files), Binary)
      ensures r == WatchdogReverted ==>
                && running.Some? && ver(running.value) == from && (!took ==> running == old(running))
                && At(files, Binary) ==
                   if took && !(healthy && from == to) then Some(pair.binary) else At(old(files), Binary)
      ensures r == RolledBack ==> exists k :: |old(hist)| <= k < |hist| && Returned(hist[k], pair)
      ensures faults >= old(faults)
      ensures faults == old(faults) ==>
                && took && r != RollbackFailed && (r == Confirmed ==> Marker !in files)
                && (healthy ==> r == Confirmed) && (!healthy && ver(pair.binary) != to ==> r != Confirmed)
    {
      hide AllAgree, Agree, Returned, Restored, Kept, AllKept, HasPair, Sourceable, Armed, Starts;
      ghost var fs0, n0 := files, |hist|;
      ghost var ran, starts;
      took, ran, starts := Launch(pair, healthy);
      KeptPair(fs0, files, pair);
      ghost var fs2, n2, hist2 := files, |hist|, hist;
      r := Decide(pair, snapshot, from, to);
      AllKeptPrefix(fs0, hist2, hist, n0, n2);
      KeptOn(fs0, fs2, files, hist, n0, n2);
    }

    // Apply up to the swap: backup, staging, records, rename.
    method Stage(json: Json, sql: Sql, name: string, from: string, to: string, newBinary: string)
      returns (r: Outcome, snap: string, ghost pair: Pair, ghost wrote: bool)
      requires Valid() && Lawful(json) && Copies(sql) && name != "" && Marker !in files
      modifies this`files, this`hist, this`faults
      ensures Valid() && old(hist) <= hist && (Stopped(r) || r == Confirmed)
      ensures r == Confirmed ==> Armed(files, pair.record) && Starts(files) == 0
      ensures forall k :: |old(hist)| <= k < |hist| - 1 ==> At(hist[k], Binary) == At(old(files), Binary)
      ensures r.Unprepared? ==>
                && AllBackup(old(files), hist, |old(hist)|, name) && OnlyBackup(old(files), files, name)
                && At(files, Prev) == At(old(files), if r.backedUp then Binary else Prev)
                && (r.backedUp ==> Binary in old(files))
      ensures !r.Unprepared? ==>
                && Binary in old(files) && pair.binary == old(files)[Binary] && snap == pair.record.snapshot
                && Saved(json, old(files), files, name, pair)
                && (pair.record.snapshot == "" <==> Db !in old(files))
                && (Db in old(files) ==> sql.view(pair.snapshot, None) == sql.view(old(files)[Db], At(old(files), Wal)))
      ensures r.Unswapped? ==>
                At(files, Binary) == At(old(files), Binary) && Begun(json, old(files), files, Marker, pair.record)
      ensures r == Confirmed ==> |old(hist)| < |hist| && At(files, Binary) == Some(newBinary) && ver(newBinary) == to
      ensures r == Confirmed ==> Anchored(json, files, pair)
      ensures r == Confirmed && wrote ==>
                Recorded(json, files, pair) && At(files, LastGood) == Some(json.enc(pair.record))
      ensures faults >= old(faults)
      ensures faults == old(faults) && Binary in old(files) && ver(newBinary) == to ==> r == Confirmed && wrote
    {
      hide AllAgree, Agree, Recorded, Anchored, HasPair, Lawful, Copies, OnlyBackup, AllBackup, Armed, Starts;
      pair, wrote := Pair("", Record("", "", ""), ""), false;
      ghost var fs0, n0 := files, |hist|;
      var ok, backedUp;
      ok, snap, backedUp := Prepare(sql, name, newBinary, to);
      BackupBinary(fs0, files, hist, n0, name);
      if !ok { return Unprepared(backedUp), snap, pair, wrote; }
      var record := Record(from, to, snap);
      pair := Pair(fs0[Binary], record, if snap == "" then "" else files[Snap(name)]);
      PairSaved(sql, fs0, files, pair);
      ghost var fs1, n1, hist1 := files, |hist|, hist;
      ok, wrote := Announce(json, record);
      assert forall k :: n0 <= k < n1 ==> hist[k] == hist1[k];
      PairStillSaved(fs1, files, RECORDS + {Binary, Staged}, pair);
      NowSaved(json, fs0, fs1, files, name, pair);
      r := if ok then Confirmed else Unswapped;
      if ok { AnnouncedAnchored(json, files, pair); }
      if ok && wrote { AnnouncedRecorded(json, files, pair); }
    }

    // Apply, from the backup on, with no update pending. `healthy` is whether the new
    // binary comes up; `wrote` says whether the last-good record was written - a failure
    // there is ignored - and `took` whether the restart took effect.
    method Apply(json: Json, sql: Sql, name: string, from: string, to: string, newBinary: string, healthy: bool)
      returns (r: Outcome, ghost pair: Pair, ghost wrote: bool, ghost took: bool)
      requires Valid() && Lawful(json) && Copies(sql) && PlainPath(name) && Marker !in files
      modifies this
      ensures Valid() && old(hist) <= hist
      // Stopped early: at every point nothing changed but perhaps the previous binary.
      ensures r.Unprepared? ==>
                && AllBackup(old(files), hist, |old(hist)|, name) && OnlyBackup(old(files), files, name)
                && At(files, Prev) == At(old(files), if r.backedUp then Binary else Prev)
                && (r.backedUp ==> Binary in old(files))
      ensures Stopped(r) ==>
                && (forall k :: |old(hist)| <= k < |hist| ==> At(hist[k], Binary) == At(old(files), Binary))
                && running == old(running)
      // Past the backup: the pair that was live is saved.
      ensures !r.Unprepared? ==>
                && Binary in old(files) && pair.binary == old(files)[Binary]
                && Saved(json, old(files), files, name, pair)
                && (pair.record.snapshot == "" <==> Db !in old(files))
                && (Db in old(files) ==> sql.view(pair.snapshot, None) == sql.view(old(files)[Db], At(old(files), Wal)))
      ensures r.Unswapped? ==> Begun(json, old(files), files, Marker, pair.record)
      // Past the swap.
      ensures !Stopped(r) ==> AllMarked(json, hist, |old(hist)|, pair) && ver(newBinary) == to
      ensures !Stopped(r) && wrote ==> AllSafe(json, hist, |old(hist)|, pair) && Recorded(json, files, pair)
      ensures r == Confirmed ==> running.Some? && ver(running.value) == to
      ensures (r == Confirmed && ver(pair.binary) != to && (old(running).Some? ==> ver(old(running).value) != to)) ==>
                took && healthy && running == At(files, Binary) == Some(newBinary)
      ensures r == WatchdogReverted ==>
                && running.Some? && ver(running.value) == from && (!took ==> running == old(running))
                && At(files, Binary) == Some(if took && !(healthy && from == to) then pair.binary else newBinary)
      ensures r == RolledBack ==> exists k :: |old(hist)| <= k < |hist| && Returned(hist[k], pair)
      // Nothing failing but the new binary itself: confirmed when it comes up healthy,
      // else the old one is back, unless both report one version.
      ensures faults >= old(faults)
      ensures faults == old(faults) && Binary in old(files) && ver(newBinary) == to ==>
                && wrote && took && (healthy ==> r == Confirmed) && (r == Confirmed ==> Marker !in files)
                && (!healthy && ver(pair.binary) != to ==> r == WatchdogReverted || r == RolledBack)
    {
      hide Returned, AllSafe, AllMarked, Anchored, Recorded, AllKept, Armed, Starts;
      hide Kept, HasPair, Lawful, Copies, OnlyBackup, AllBackup;
      took := false;
      ghost var fs0, n0 := files, |hist|;
      var snap;
      r, snap, pair, wrote := Stage(json, sql, name, from, to, newBinary);
      if Stopped(r) {
        if r.Unprepared? { BackupBinary(fs0, files, hist, n0, name); }
        LastIsPresent(hist, n0, files);
        return;
      }
      ghost var fs2, n2, hist2 := files, |hist|, hist;
      SavedPair(json, fs0, files, name, pair);
      r, took := Settle(pair, snap, from, to, healthy);
      assert forall k :: n0 <= k < n2 ==> hist[k] == hist2[k];
      StillSaved(json, fs0, fs2, files, name, pair);
      MarkedThroughout(json, fs2, hist, n0, n2, pair);
      if wrote {
        SafeThroughout(json, fs2, hist, n0, n2, pair);
        KeptRecorded(json, fs2, files, pair);
      }
    }

    // The records, then the swap.
    method Announce(json: Json, record: Record) returns (ok: bool, ghost wrote: bool)
      requires Valid() && Staged in files && Marker !in files
      modifies this`files, this`hist, this`faults
      ensures Valid() && old(hist) <= hist && |old(hist)| < |hist|
      ensures Agree(old(files), files, RECORDS + {Binary, Staged})
      ensures forall k :: |old(hist)| <= k < |hist| - 1 ==> At(hist[k], Binary) == At(old(files), Binary)
      ensures At(files, Binary) == if ok then At(old(files), Staged) else At(old(files), Binary)
      ensures Begun(json, old(files), files, Marker, record) && Begun(json, old(files), files, LastGood, record)
      ensures ok ==> At(files, Marker) == Some(json.enc(record))
      ensures ok ==> Armed(files, record) && Starts(files) == 0
      ensures ok && wrote ==> At(files, LastGood) == Some(json.enc(record))
      ensures faults >= old(faults) && (faults == old(faults) ==> ok && wrote)
    {
      hide Begun, Starts, Twin;
      ok, wrote := WriteRecords(json, record);
      ghost var mid, hist1 := files, hist;
      assert At(files, Staged) == At(old(files), Staged);
      if ok {
        ok := Swap();
      } else {
        var gone := Remove(Staged);
      }
      assert forall k :: |old(hist)| <= k < |hist1| ==> hist[k] == hist1[k];
      StillBegun(json, old(files), mid, files, record);
      if ok { NoStarts(files); }
    }

    method Swap() returns (ok: bool)
      requires Valid() && Staged in files
      modifies this`files, this`hist, this`faults
      ensures Valid() && old(hist) <= hist && |old(hist)| < |hist|
      ensures Agree(old(files), files, RECORDS - {LastGood} + {Binary, Staged})
      ensures forall k :: |old(hist)| <= k < |hist| - 1 ==> At(hist[k], Binary) == At(old(files), Binary)
      ensures At(files, Binary) == At(old(files), if ok then Staged else Binary)
      ensures At(files, Marker) == At(old(files), Marker) || (Marker !in files && !ok)
      ensures ok ==> At(files, Env) == At(old(files), Env) && At(files, Attempts) == At(old(files), Attempts)
      ensures faults >= old(faults) && (faults == old(faults) ==> ok)
    {
      ok := Rename(Staged, Binary);
      if !ok { ClearMarker(); }
    }

    method WriteRecords(json: Json, record: Record) returns (ok: bool, ghost wrote: bool)
      requires Valid()
      modifies this`files, this`hist, this`faults
      ensures Valid() && old(hist) <= hist && AllAgree(old(files), hist, |old(hist)|, RECORDS)
      ensures Agree(old(files), files, RECORDS)
      ensures Begun(json, old(files), files, Marker, record) && Begun(json, old(files), files, LastGood, record)
      ensures ok ==>
                && At(files, Marker) == Some(json.enc(record))
                && At(files, Env) == Some(Twin(record)) && At(files, Attempts) == Some("0\n")
      ensures ok && wrote ==> At(files, LastGood) == Some(json.enc(record))
      ensures faults >= old(faults) && (faults == old(faults) ==> ok && wrote)
    {
      hide Twin;
      wrote := false;
      ok := WriteMarker(json, record);
      if !ok { return; }
      var good := WriteFile(LastGood, json.enc(record));
      wrote := good;
    }
  }

  // ------------------------------------------------------------ facts the methods use ----

  lemma AllKeptRecorded(json: Json, fs: Files, hist: seq<Files>, from: nat, pair: Pair)
    requires Recorded(json, fs, pair) && AllKept(fs, hist, from)
    ensures AllRecorded(json, hist, from, pair)
  {
    hide Kept, Recorded;
    forall k | from <= k < |hist| ensures Recorded(json, hist[k], pair) { KeptRecorded(json, fs, hist[k], pair); }
  }

  lemma AllKeptAnchored(json: Json, fs: Files, hist: seq<Files>, from: nat, at: nat, pair: Pair)
    requires Anchored(json, fs, pair) && AllKept(fs, hist, from) && at < |hist|
    requires forall k :: from <= k <= at ==> MarkedOrBack(fs, hist[k], pair)
    ensures forall k :: from <= k <= at ==> Anchored(json, hist[k], pair) || Returned(hist[k], pair)
  {
    hide Anchored, Kept, Returned;
    forall k | from <= k <= at ensures Anchored(json, hist[k], pair) || Returned(hist[k], pair) {
      KeptAnchored(json, fs, hist[k], pair);
    }
  }

  lemma AllBack(fs: Files, hist: seq<Files>, from: nat, but: set<Path>, pair: Pair)
    requires AllAgree(fs, hist, from, but) && Returned(fs, pair) && Binary !in but && Db !in but && Wal !in but
    ensures forall k :: from <= k < |hist| ==> Returned(hist[k], pair)
  {
    hide Agree, Returned;
    forall k | from <= k < |hist| ensures Returned(hist[k], pair) {
      BackStays(fs, hist[k], but, pair);
    }
  }

  lemma AgreeSelf(fs: Files, but: set<Path>)
    ensures Agree(fs, fs, but)
  {
  }

  lemma AttemptsOnly(fs: Files, fs2: Files, hist: seq<Files>, from: nat)
    requires AllAgree(fs, hist, from, {Attempts}) && Agree(fs, fs2, {Attempts})
    ensures AllKept(fs, hist, from) && Kept(fs, fs2)
  {
    AgreeKept(fs, fs2, hist, from, {Attempts});
  }

  lemma StillArmed(fs: Files, fs2: Files, r: Record)
    requires Armed(fs, r) && Agree(fs, fs2, {Attempts})
    ensures Armed(fs2, r)
  {
    hide Twin;
    assert At(fs2, Marker) == At(fs, Marker) && At(fs2, Env) == At(fs, Env);
  }

  lemma SameRecords(fs: Files, fs2: Files, r: Record)
    requires Armed(fs, r) && Agree(fs, fs2, {Db, Wal, Shm})
    ensures Armed(fs2, r) && Starts(fs2) == Starts(fs)
  {
    hide Twin;
    assert At(fs2, Marker) == At(fs, Marker) && At(fs2, Env) == At(fs, Env) && At(fs2, Attempts) == At(fs, Attempts);
  }

  lemma AgreeTwice(fs0: Files, fs1: Files, fs2: Files, a: set<Path>, b: set<Path>)
    requires Agree(fs0, fs1, a) && Agree(fs1, fs2, b) && b <= a
    ensures Agree(fs0, fs2, a)
  {
  }

  lemma KeptSelf(fs: Files, hist: seq<Files>, from: nat)
    requires from == |hist|
    ensures Kept(fs, fs) && AllKept(fs, hist, from)
  {
  }

  lemma AllKeptPrefix(fs: Files, some: seq<Files>, hist: seq<Files>, from: nat, to: nat)
    requires AllKept(fs, some, from) && to == |some| && some <= hist
    ensures forall k :: from <= k < to ==> Kept(fs, hist[k])
  {
    hide Kept;
    assert forall k :: from <= k < to ==> hist[k] == some[k];
  }

  lemma BackBinary(fs: Files, pair: Pair)
    requires Returned(fs, pair)
    ensures At(fs, Binary) == Some(pair.binary)
  {
  }

  lemma BackIs(fs: Files, pair: Pair)
    requires Returned(fs, pair)
    ensures At(fs, Binary) == Some(pair.binary) && (pair.record.snapshot != "" ==> At(fs, Db) == Some(pair.snapshot))
  {
  }

  lemma BackStays(fs: Files, fs2: Files, but: set<Path>, pair: Pair)
    requires Agree(fs, fs2, but) && Binary !in but && Db !in but && Wal !in but
    ensures Returned(fs, pair) <==> Returned(fs2, pair)
    ensures Restored(fs, pair) <==> Restored(fs2, pair)
  {
    assert At(fs2, Binary) == At(fs, Binary) && At(fs2, Db) == At(fs, Db) && At(fs2, Wal) == At(fs, Wal);
  }

  lemma KeptPair(fs: Files, fs2: Files, pair: Pair)
    requires HasPair(fs, pair) && Kept(fs, fs2)
    ensures HasPair(fs2, pair)
  {
  }

  // Files outside the records and the saved pair do not matter; nor does the marker.
  lemma AgreeKept(fs: Files, fs2: Files, hist: seq<Files>, from: nat, but: set<Path>)
    requires AllAgree(fs, hist, from, but) && Agree(fs, fs2, but)
    requires LastGood !in but && Prev !in but && forall n :: Snap(n) !in but
    requires Marker !in but
             || ((forall k :: from <= k < |hist| ==> At(hist[k], Marker) == At(fs, Marker) || Marker !in hist[k])
                 && (At(fs2, Marker) == At(fs, Marker) || Marker !in fs2))
    ensures AllKept(fs, hist, from) && Kept(fs, fs2)
  {
  }

  lemma KeptOn(fs0: Files, fs1: Files, fs2: Files, hist: seq<Files>, n0: nat, n1: nat)
    requires n0 <= n1 <= |hist| && Kept(fs0, fs1) && Kept(fs1, fs2)
    requires forall k :: n0 <= k < n1 ==> Kept(fs0, hist[k])
    requires AllKept(fs1, hist, n1)
    ensures AllKept(fs0, hist, n0) && Kept(fs0, fs2)
  {
  }

  lemma BinaryStays(fs: Files, fs2: Files, but: set<Path>)
    requires Agree(fs, fs2, but) && Binary !in but
    ensures At(fs2, Binary) == At(fs, Binary)
  {
  }

  // Work beside the records after a backup is still only a backup.
  lemma OnBackup(fs0: Files, mid: Files, hist1: seq<Files>, hist: seq<Files>, n0: nat, name: string)
    requires hist1 != [] && hist1 <= hist && AllBackup(fs0, hist1, n0, name) && OnlyBackup(fs0, mid, name)
    requires forall k :: |hist1| <= k < |hist| ==> Agree(mid, hist[k], {Snap(name), Staged, Temp(Staged)})
    ensures AllBackup(fs0, hist, n0, name)
  {
    hide Agree;
    forall k | n0 <= k < |hist| ensures OnlyBackup(fs0, hist[k], name) {
      if k < |hist1| {
        assert hist[k] == hist1[k];
      } else {
        BackupOn(fs0, mid, hist[k], name);
      }
    }
  }

  lemma BackupOn(fs0: Files, mid: Files, fs: Files, name: string)
    requires OnlyBackup(fs0, mid, name) && Agree(mid, fs, {Snap(name), Staged, Temp(Staged)})
    ensures OnlyBackup(fs0, fs, name)
  {
    assert forall n :: n != name ==> At(fs, Snap(n)) == At(mid, Snap(n));
  }

  lemma BackupBinary(fs: Files, fs2: Files, hist: seq<Files>, from: nat, name: string)
    requires AllBackup(fs, hist, from, name) && OnlyBackup(fs, fs2, name)
    ensures forall k :: from <= k < |hist| ==> At(hist[k], Binary) == At(fs, Binary)
    ensures At(fs2, Binary) == At(fs, Binary) && At(fs2, Marker) == At(fs, Marker)
  {
  }

  lemma StillBegun(json: Json, fs0: Files, fs1: Files, fs2: Files, r: Record)
    requires Begun(json, fs0, fs1, Marker, r) && Begun(json, fs0, fs1, LastGood, r) && Marker !in fs0
    requires (At(fs2, Marker) == At(fs1, Marker) || Marker !in fs2) && At(fs2, LastGood) == At(fs1, LastGood)
    ensures Begun(json, fs0, fs2, Marker, r) && Begun(json, fs0, fs2, LastGood, r)
  {
  }

  lemma NowSaved(json: Json, fs0: Files, fs1: Files, fs2: Files, name: string, pair: Pair)
    requires OnlyBackup(fs0, fs1, name) && Agree(fs1, fs2, RECORDS + {Binary, Staged}) && HasPair(fs2, pair)
    requires pair.record.snapshot == name || pair.record.snapshot == ""
    requires Begun(json, fs1, fs2, LastGood, pair.record) && Begun(json, fs1, fs2, Marker, pair.record)
    ensures Saved(json, fs0, fs2, name, pair) && Begun(json, fs0, fs2, Marker, pair.record)
  {
    assert forall n :: At(fs2, Snap(n)) == At(fs1, Snap(n));
  }

  lemma SavedPair(json: Json, fs: Files, fs2: Files, name: string, pair: Pair)
    requires Saved(json, fs, fs2, name, pair)
    ensures HasPair(fs2, pair)
  {
  }

  lemma StillSaved(json: Json, fs0: Files, fs1: Files, fs2: Files, name: string, pair: Pair)
    requires Saved(json, fs0, fs1, name, pair) && Kept(fs1, fs2)
    ensures Saved(json, fs0, fs2, name, pair)
  {
  }

  lemma AgreeBinary(fs: Files, fs2: Files, hist: seq<Files>, from: nat, but: set<Path>)
    requires AllAgree(fs, hist, from, but) && Agree(fs, fs2, but) && Binary !in but
    ensures forall k :: from <= k < |hist| ==> At(hist[k], Binary) == At(fs, Binary)
    ensures At(fs2, Binary) == At(fs, Binary)
  {
  }

  lemma PairSaved(sql: Sql, fs: Files, fs2: Files, pair: Pair)
    requires Copies(sql) && At(fs, Binary) == Some(pair.binary) && At(fs2, Prev) == Some(pair.binary)
    requires Db !in fs ==> pair.record.snapshot == ""
    requires Db in fs ==>
              && At(fs2, Snap(pair.record.snapshot)) == Some(pair.snapshot)
              && pair.snapshot == sql.vacuum(fs[Db], At(fs, Wal))
    ensures HasPair(fs2, pair)
    ensures Db in fs ==> sql.view(pair.snapshot, None) == sql.view(fs[Db], At(fs, Wal))
  {
  }

  lemma PairStillSaved(fs: Files, fs2: Files, but: set<Path>, pair: Pair)
    requires HasPair(fs, pair) && Agree(fs, fs2, but) && Prev !in but && Snap(pair.record.snapshot) !in but
    ensures HasPair(fs2, pair)
  {
    assert At(fs2, Prev) == At(fs, Prev) && At(fs2, Snap(pair.record.snapshot)) == At(fs, Snap(pair.record.snapshot));
  }

  lemma AnnouncedAnchored(json: Json, fs: Files, pair: Pair)
    requires Lawful(json) && HasPair(fs, pair) && At(fs, Marker) == Some(json.enc(pair.record))
    ensures Anchored(json, fs, pair)
  {
  }

  lemma AnnouncedRecorded(json: Json, fs: Files, pair: Pair)
    requires Lawful(json) && HasPair(fs, pair)
    requires At(fs, Marker) == Some(json.enc(pair.record)) && At(fs, LastGood) == Some(json.enc(pair.record))
    ensures Recorded(json, fs, pair)
  {
  }

  lemma MarkedThroughout(json: Json, swapped: Files, hist: seq<Files>, n0: nat, n2: nat, pair: Pair)
    requires n0 < n2 <= |hist| && hist[n2 - 1] == swapped && Anchored(json, swapped, pair)
    requires forall k :: n0 <= k < n2 - 1 ==> At(hist[k], Binary) == Some(pair.binary)
    requires AllKept(swapped, hist, n2)
    ensures AllMarked(json, hist, n0, pair)
  {
    hide Anchored;
    forall k | n0 <= k < |hist|
      ensures At(hist[k], Binary) == Some(pair.binary) || Marker !in hist[k] || Anchored(json, hist[k], pair)
    {
      if k >= n2 { KeptAnchored(json, swapped, hist[k], pair); }
    }
  }

  // Old binary before the swap, a record from the swap on.
  lemma LastIsPresent(hist: seq<Files>, n0: nat, fs: Files)
    requires hist != [] && hist[|hist| - 1] == fs
    ensures forall k :: n0 <= k < |hist| ==> k < |hist| - 1 || hist[k] == fs
  {
  }

  lemma SafeThroughout(json: Json, swapped: Files, hist: seq<Files>, n0: nat, n2: nat, pair: Pair)
    requires n0 < n2 <= |hist| && hist[n2 - 1] == swapped && Recorded(json, swapped, pair)
    requires forall k :: n0 <= k < n2 - 1 ==> At(hist[k], Binary) == Some(pair.binary)
    requires AllKept(swapped, hist, n2)
    ensures AllSafe(json, hist, n0, pair)
  {
    hide Anchored, Recorded, Kept;
    AllKeptRecorded(json, swapped, hist, n2, pair);
    forall k | n0 <= k < |hist| ensures At(hist[k], Binary) == Some(pair.binary) || Recorded(json, hist[k], pair) {
      if k >= n2 { assert Recorded(json, hist[k], pair); }
    }
  }

  // ------------------------------------------------------------------ two weak records ----

  // After an update that stopped before its records, a rollback has the old pair to
  // bring back exactly when the previous binary was not replaced yet, or by itself; else
  // it would pair the live binary with the older database.
  lemma AfterEarlyStop(json: Json, fs: Files, fs2: Files, name: string, pair0: Pair)
    requires Recorded(json, fs, pair0) && Marker !in fs && OnlyBackup(fs, fs2, name) && name != pair0.record.snapshot
    ensures Anchored(json, fs2, pair0) <==> At(fs2, Prev) == At(fs, Prev) || At(fs, Binary) == Some(pair0.binary)
    ensures Binary in fs && At(fs2, Prev) == At(fs, Binary) ==> Anchored(json, fs2, pair0.(binary := fs[Binary]))
  {
  }

  lemma AtEveryStop(json: Json, fs: Files, hist: seq<Files>, from: nat, name: string, pair0: Pair)
    requires Recorded(json, fs, pair0) && Marker !in fs && AllBackup(fs, hist, from, name)
    requires name != pair0.record.snapshot
    ensures forall k :: from <= k < |hist| ==>
              (Anchored(json, hist[k], pair0) <==>
               At(hist[k], Prev) == At(fs, Prev) || At(fs, Binary) == Some(pair0.binary))
  {
    hide Recorded, Anchored, OnlyBackup;
    forall k | from <= k < |hist|
      ensures Anchored(json, hist[k], pair0) <==>
                At(hist[k], Prev) == At(fs, Prev) || At(fs, Binary) == Some(pair0.binary)
    {
      AfterEarlyStop(json, fs, hist[k], name, pair0);
    }
  }

  // What a rollback follows once the new pair is saved: either record of it if whole,
  // else the older last-good record if that was not touched.
  lemma AfterSaved(json: Json, fs: Files, fs2: Files, name: string, pair0: Pair, pair: Pair)
    requires Lawful(json) && Recorded(json, fs, pair0) && Marker !in fs && name != pair0.record.snapshot
    requires Saved(json, fs, fs2, name, pair) && Begun(json, fs, fs2, Marker, pair.record)
    ensures Chosen(json, fs2) ==
              if Some(json.enc(pair.record)) in [At(fs2, Marker), At(fs2, LastGood)] then Some(pair.record)
              else if At(fs2, LastGood) == At(fs, LastGood) then Some(pair0.record) else None
    ensures Chosen(json, fs2) == Some(pair.record) ==> Anchored(json, fs2, pair)
    ensures Chosen(json, fs2) == Some(pair0.record) ==> Anchored(json, fs2, pair0.(binary := pair.binary))
    ensures Anchored(json, fs2, pair0) <==> Chosen(json, fs2) == Some(pair0.record) && pair0.binary == pair.binary
  {
    Cut(json, fs, fs2, Marker, pair.record);
    Cut(json, fs, fs2, LastGood, pair.record);
  }

  // A begun record is whole, untouched, or unreadable.
  lemma Cut(json: Json, fs: Files, fs2: Files, p: Path, r: Record)
    requires Lawful(json) && Begun(json, fs, fs2, p, r)
    ensures At(fs2, p) == At(fs, p) || At(fs2, p) == Some(json.enc(r)) || (p in fs2 && json.dec(fs2[p]) == None)
    ensures At(fs2, p) == Some(json.enc(r)) ==> p in fs2 && json.dec(fs2[p]) == Some(r)
  {
    if p in fs2 && fs2[p] <= json.enc(r) && fs2[p] != json.enc(r) {
      assert fs2[p] < json.enc(r);
    }
  }

  // A pair that is back whole shows the database its snapshot was taken of; one that is
  // back beside a surviving log shows what SQLite makes of the two.
  lemma BackSeen(sql: Sql, fs: Files, pair: Pair)
    requires Returned(fs, pair) && pair.record.snapshot != ""
    ensures Seen(sql, fs) == Some(sql.view(pair.snapshot, At(fs, Wal)))
    ensures Restored(fs, pair) ==> Seen(sql, fs) == Some(sql.view(pair.snapshot, None))
  {
  }

  // The pair a rollback brings back after an update that ended as `r`.
  function BackPair(json: Json, fs: Files, mid: Files, r: Outcome, pair: Pair, pair0: Pair): Pair
    requires r.Unprepared? && r.backedUp ==> Binary in fs
  {
    if r.Unprepared? then if r.backedUp then pair0.(binary := fs[Binary]) else pair0
    else if Anchored(json, mid, pair) then pair else pair0.(binary := pair.binary)
  }

  // An update, and a rollback after it. An early stop leaves the older pair to go back to,
  // at every point on the way and for the rollback that follows, exactly when the
  // previous binary was not replaced or was that pair's already. Past the swap, with the
  // marker gone, the pair to go back to is the one the update saved exactly when its
  // last-good record is there whole or the older record reads the same; where the older
  // record stayed, that database comes back instead. Whichever pair comes back is whole
  // exactly when the abandoned log did not survive; and then the saved pair shows the
  // database as it was before the update.
  method UpdateThenRollback(d: Disk, json: Json, sql: Sql, name: string, from: string, to: string,
                            newBinary: string, healthy: bool, ghost pair0: Pair)
    returns (r: Outcome, ok: bool, ghost at: nat, ghost pair: Pair, ghost mid: Files, ghost stop: nat,
             ghost logGone: bool)
    requires d.Valid() && Lawful(json) && Copies(sql) && PlainPath(name) && Marker !in d.files
    requires Recorded(json, d.files, pair0) && name != pair0.record.snapshot
    modifies d
    ensures ok ==> at < |d.hist|
    ensures |old(d.hist)| <= stop <= |d.hist|
    ensures r.Unprepared? ==> forall k :: |old(d.hist)| <= k < stop ==>
              (Anchored(json, d.hist[k], pair0) <==>
               At(d.hist[k], Prev) == At(old(d.files), Prev) || At(old(d.files), Binary) == Some(pair0.binary))
    ensures r.Unprepared? && r.backedUp ==> Binary in old(d.files)
    ensures ok && (Stopped(r) ==> r.Unprepared?) && Marker !in mid ==>
              var back := BackPair(json, old(d.files), mid, r, pair, pair0);
              Returned(d.hist[at], back) && (Restored(d.hist[at], back) <==> LogDropped(mid, back, logGone))
    // Written out: that pair's binary, and over any database file its snapshot.
    ensures ok && (Stopped(r) ==> r.Unprepared?) && Marker !in mid ==>
              var back := BackPair(json, old(d.files), mid, r, pair, pair0);
              && At(d.hist[at], Binary) == Some(back.binary)
              && (back.record.snapshot != "" ==> At(d.hist[at], Db) == Some(back.snapshot))
    ensures r.Unprepared? && ok ==>
              (Returned(d.hist[at], pair0) <==> !r.backedUp || At(old(d.files), Binary) == Some(pair0.binary))
    ensures !Stopped(r) && Marker !in mid ==>
              (Anchored(json, mid, pair) <==>
               || At(mid, LastGood) == Some(json.enc(pair.record))
               || (At(mid, LastGood) == At(old(d.files), LastGood) && pair0.record == pair.record))
    ensures !Stopped(r) && ok && Marker !in mid && Anchored(json, mid, pair) && Db in old(d.files)
            && LogDropped(mid, pair, logGone) ==>
              Seen(sql, d.hist[at]) == Seen(sql, old(d.files))
    ensures d.faults == old(d.faults) && (r.Unprepared? || r == Confirmed) ==> ok && logGone
  {
    hide Returned, Restored, LogDropped, OnlyBackup, AllBackup, Lawful, Copies, HasPair, Saved;
    ghost var fs0, took, wrote, again := d.files, false, false, false;
    at, ok, logGone := 0, false, false;
    r, pair, wrote, took := d.Apply(json, sql, name, from, to, newBinary, healthy);
    mid, stop := d.files, |d.hist|;
    ghost var hist := d.hist;
    if r.Unprepared? {
      AtEveryStop(json, fs0, d.hist, |old(d.hist)|, name, pair0);
      AfterEarlyStop(json, fs0, mid, name, pair0);
      ghost var back := if r.backedUp then pair0.(binary := fs0[Binary]) else pair0;
      ok, at, logGone, again := d.Rollback(json, back);
      if ok { BackIs(d.hist[at], back); OtherBinary(d.hist[at], back, pair0); }
      assert forall k :: 0 <= k < stop ==> d.hist[k] == hist[k];
    } else if !Stopped(r) && Marker !in d.files {
      AfterSaved(json, fs0, mid, name, pair0, pair);
      if r == Confirmed && wrote { RecordedAnchors(json, mid, pair); }
      var follows := Chosen(json, d.files);
      if follows.Some? {
        ghost var back := if Anchored(json, mid, pair) then pair else pair0.(binary := pair.binary);
        ok, at, logGone, again := d.Rollback(json, back);
        if ok { BackIs(d.hist[at], back); }
        if ok && back.record.snapshot != "" { BackSeen(sql, d.hist[at], back); }
      }
    }
  }

  lemma OtherBinary(fs: Files, back: Pair, pair0: Pair)
    requires Returned(fs, back) && back == pair0.(binary := back.binary)
    ensures Returned(fs, pair0) <==> back.binary == pair0.binary
  {
  }

  // ---------------------------------------------------------------------- failing inputs ----

  // "B1" is live, a rollback would bring back "B0"; the backup done, it would keep "B1"
  // and restore the older database under it.
  lemma EarlyStopInput(json: Json, r0: Record)
    requires Lawful(json) && r0.snapshot == "s0"
    ensures var fs := map[Binary := "B1", Prev := "B0", LastGood := json.enc(r0), Snap("s0") := "D0"];
            var pair0 := Pair("B0", r0, "D0");
            && Recorded(json, fs, pair0)
            && OnlyBackup(fs, fs[Prev := "B1"], "s1") && !Anchored(json, fs[Prev := "B1"], pair0)
  {
  }

  // The same disk after an update to "B2" that could not write its last-good record:
  // the saved pair is there, and the record followed names the older database.
  lemma UnwrittenInput(json: Json, r0: Record, r1: Record)
    requires Lawful(json) && r0.snapshot == "s0" && r1.snapshot == "s1"
    ensures var fs := map[Binary := "B1", Prev := "B0", LastGood := json.enc(r0), Snap("s0") := "D0"];
            var fs2 := map[Binary := "B2", Prev := "B1", LastGood := json.enc(r0),
                           Snap("s0") := "D0", Snap("s1") := "D1"];
            var pair := Pair("B1", r1, "D1");
            && Recorded(json, fs, Pair("B0", r0, "D0")) && Saved(json, fs, fs2, "s1", pair)
            && !Anchored(json, fs2, pair) && Anchored(json, fs2, Pair("B1", r0, "D0"))
  {
  }

  // The first update of a box whose restart failed and whose last-good record could not
  // be written: the old process still answers, the update reports a revert and clears
  // the marker, the new binary is on disk, and no record names the pair it replaced.
  lemma DeafRestartInput(json: Json, r1: Record)
    requires r1.snapshot == ""
    ensures var fs2: Files := map[Binary := "B2", Prev := "B1"];
            var pair := Pair("B1", r1, "");
            HasPair(fs2, pair) && Saved(json, map[Binary := "B1"], fs2, "s1", pair)
            && At(fs2, Binary) != Some(pair.binary) && Chosen(json, fs2) == None
  {
  }

  // A rollback that could not remove the abandoned log: binary and database file are
  // back, and SQLite replays the log over the file.
  lemma SurvivingLogInput(r0: Record)
    requires r0.snapshot == "s0"
    ensures var view := (m: string, w: Option<string>) => if w.Some? then m + w.value else m;
            var sql := Sql(view, view);
            var fs: Files := map[Binary := "B0", Db := "D0", Wal := "new rows"];
            var pair := Pair("B0", r0, "D0");
            && Copies(sql) && Returned(fs, pair) && !Restored(fs, pair)
            && Seen(sql, fs) == Some("D0new rows") && Seen(sql, fs - {Wal}) == Some("D0")
  {
    assert "D0" + "new rows" == "D0new rows";
  }

  // -------------------------------------------------------------- interrupted rollbacks ----

  // Rollback after rollback, each cut off anywhere, from any state the records hold
  // in: the first one to finish has brought the old pair back, whole exactly when the
  // abandoned log was gone by then or the last attempt removed it.
  method RollbackUntilDone(ver: string -> string, running: Option<string>, json: Json, crashed: Files,
                           ghost pair: Pair, tries: nat)
    returns (done: bool, ghost found: Files, ghost last: Files, ghost logGone: bool)
    requires Recorded(json, crashed, pair)
    ensures done ==> Returned(found, pair) && Recorded(json, last, pair)
    ensures done ==> (Restored(found, pair) <==> LogDropped(last, pair, logGone))
  {
    hide Recorded, Returned, Restored, Anchored, LogDropped;
    var fs, n := crashed, tries;
    last, logGone := crashed, false;
    while n > 0
      invariant Recorded(json, fs, pair)
    {
      var d := new Disk(ver, fs, running);
      RecordedAnchors(json, fs, pair);
      last := fs;
      var ok; ghost var at, took;
      ok, at, logGone, took := d.Rollback(json, pair);
      var cut: nat := *;
      if 0 < cut < |d.hist| {
        CutOff(json, d.hist, cut, pair);
        fs := d.hist[cut];
      } else if ok {
        return true, d.hist[at], last, logGone;
      } else {
        fs := d.files;
      }
      n := n - 1;
    }
    return false, fs, last, logGone;
  }

  lemma CutOff(json: Json, hist: seq<Files>, cut: nat, pair: Pair)
    requires AllRecorded(json, hist, 1, pair) && 0 < cut < |hist|
    ensures Recorded(json, hist[cut], pair)
  {
  }
}
