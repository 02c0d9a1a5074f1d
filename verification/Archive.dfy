/** The content-addressed archive: an index of rows over stored files, deduplicated by content hash,
    with cleanup of the file when inserting its row fails. */
module Archive {
  import opened Wrappers

  type Bytes = seq<Byte>

  /** The digest; `hex` of SHA-256 in the original, any function here. */
  type Hash = Bytes -> string

  const SNIFF_HEADER_BYTES: nat := 64

  datatype Fingerprint = Fingerprint(hash: string, size: nat, header: Bytes)

  function FingerprintBytes(hash: Hash, bytes: Bytes): Fingerprint {
    Fingerprint(hash(bytes), |bytes|, bytes[..Min(|bytes|, SNIFF_HEADER_BYTES)])
  }

  function Flatten(chunks: seq<Bytes>): Bytes {
    if chunks == [] then [] else Flatten(chunks[..|chunks| - 1]) + chunks[|chunks| - 1]
  }

  /** Reading a file in chunks of any sizes gives the fingerprint of the whole content. The hasher is
      modelled by the bytes fed to it so far. An empty read ends the file. */
  method FingerprintPath(hash: Hash, chunks: seq<Bytes>) returns (f: Fingerprint)
    requires forall i :: 0 <= i < |chunks| ==> chunks[i] != []
    ensures f == FingerprintBytes(hash, Flatten(chunks))
    ensures f.hash == hash(Flatten(chunks)) && f.size == |Flatten(chunks)|
    ensures f.header == Flatten(chunks)[..Min(64, |Flatten(chunks)|)]
  {
    var fed: Bytes, size: nat, header: Bytes := [], 0, [];
    for i := 0 to |chunks|
      invariant fed == Flatten(chunks[..i]) && size == |fed| && header == fed[..Min(|fed|, SNIFF_HEADER_BYTES)]
    {
      var chunk := chunks[i];
      assert chunks[..i + 1][..i] == chunks[..i];
      if |header| < SNIFF_HEADER_BYTES {
        var remaining := SNIFF_HEADER_BYTES - |header|;
        header := header + chunk[..Min(|chunk|, remaining)];
      }
      fed := fed + chunk;
      size := size + |chunk|;
    }
    assert chunks[..|chunks|] == chunks;
    f := Fingerprint(hash(fed), size, header);
  }

  // ----- rows and files

  datatype Media = Media(kind: string, mimeType: Option<string>, extension: Option<string>)

  /** What the caller says about the file. */
  datatype Input = Input(sourceKind: string, filename: Option<string>, sessionKey: Option<string>, metadata: string)

  datatype Record = Record(id: string, input: Input, media: Media, hash: string, size: nat, path: string, createdAt: int)

  datatype Archive = Archive(rows: seq<Record>, files: map<string, Bytes>)

  const EMPTY := Archive([], map[])

  datatype Failed = LookupFailed | WriteFailed | InsertFailed | NotFound | ReadFailed

  /** One ingest. `content` is what is fingerprinted and `stored` what ends up in the file: the same
      bytes, unless a source file changes between the two reads. The rest is what the call cannot
      control: new identifiers, the clock, the sniffed media, and which of its effects succeed. */
  datatype Ingest = Ingest(
    input: Input, content: Bytes, stored: Bytes, newId: string, newPath: string, now: int, sniffed: Media,
    lookupOk: bool, writeOk: bool, insertOk: bool, cleanupOk: bool)

  /** The oldest row with this hash; among equally old ones the first. */
  function LookupByHash(rows: seq<Record>, hash: string): Option<Record> {
    if rows == [] then None
    else
      var best, last := LookupByHash(rows[..|rows| - 1], hash), rows[|rows| - 1];
      if last.hash == hash && (best.None? || last.createdAt < best.value.createdAt) then Some(last) else best
  }

  function RecordFor(hash: Hash, op: Ingest, media: Media, path: string): Record {
    Record(op.newId, op.input, media, hash(op.content), |op.content|, path, op.now)
  }

  /** `ingest_bytes` and `ingest_path`. */
  function IngestOne(hash: Hash, a: Archive, op: Ingest): (Archive, Result<Record, Failed>) {
    if !op.lookupOk then (a, Failure(LookupFailed))
    else
      match LookupByHash(a.rows, hash(op.content))
      case Some(existing) =>
        var row := RecordFor(hash, op, existing.media, existing.path);
        if op.insertOk then (a.(rows := a.rows + [row]), Success(row)) else (a, Failure(InsertFailed))
      case None =>
        if !op.writeOk then (a, Failure(WriteFailed))
        else
          var written := a.(files := a.files[op.newPath := op.stored]);
          var row := RecordFor(hash, op, op.sniffed, op.newPath);
          if op.insertOk then (written.(rows := a.rows + [row]), Success(row))
          else if op.cleanupOk then (written.(files := written.files - {op.newPath}), Failure(InsertFailed))
          else (written, Failure(InsertFailed))
  }

  function FindById(rows: seq<Record>, id: string): Option<Record> {
    if rows == [] then None
    else if rows[0].id == id then Some(rows[0])
    else FindById(rows[1..], id)
  }

  /** `open_download`. */
  function Download(a: Archive, id: string): Result<Bytes, Failed> {
    match FindById(a.rows, id)
    case None => Failure(NotFound)
    case Some(r) => if r.path in a.files then Success(a.files[r.path]) else Failure(ReadFailed)
  }

  function IngestAll(hash: Hash, ops: seq<Ingest>): Archive {
    if ops == [] then EMPTY
    else IngestOne(hash, IngestAll(hash, ops[..|ops| - 1]), ops[|ops| - 1]).0
  }

  class ArchiveService {
    var rows: seq<Record>
    var files: map<string, Bytes>

    function View(): Archive
      reads this
    {
      Archive(rows, files)
    }

    constructor ()
      ensures View() == EMPTY
    {
      rows, files := [], map[];
    }

    method FindExisting(hash: string) returns (best: Option<Record>)
      ensures best == LookupByHash(rows, hash)
    {
      best := None;
      for i := 0 to |rows|
        invariant best == LookupByHash(rows[..i], hash)
      {
        assert rows[..i + 1][..i] == rows[..i];
        if rows[i].hash == hash && (best.None? || rows[i].createdAt < best.value.createdAt) {
          best := Some(rows[i]);
        }
      }
      assert rows[..|rows|] == rows;
    }

    method IngestBytes(hash: Hash, op: Ingest) returns (r: Result<Record, Failed>)
      modifies this
      ensures (View(), r) == IngestOne(hash, old(View()), op)
    {
      r := Store(hash, FingerprintBytes(hash, op.content), op);
    }

    /** The content arrives in the chunks in which the source file is read. */
    method IngestPath(hash: Hash, chunks: seq<Bytes>, op: Ingest) returns (r: Result<Record, Failed>)
      requires (forall i :: 0 <= i < |chunks| ==> chunks[i] != []) && op.content == Flatten(chunks)
      modifies this
      ensures (View(), r) == IngestOne(hash, old(View()), op)
    {
      var mark := FingerprintPath(hash, chunks);
      r := Store(hash, mark, op);
    }

    method Store(hash: Hash, mark: Fingerprint, op: Ingest) returns (r: Result<Record, Failed>)
      requires mark == FingerprintBytes(hash, op.content)
      modifies this
      ensures (View(), r) == IngestOne(hash, old(View()), op)
    {
      if !op.lookupOk {
        return Failure(LookupFailed);
      }
      var existing := FindExisting(mark.hash);
      if existing.Some? {
        if !op.insertOk {
          return Failure(InsertFailed);
        }
        var row := Record(op.newId, op.input, existing.value.media, mark.hash, mark.size, existing.value.path, op.now);
        rows := rows + [row];
        return Success(row);
      }
      if !op.writeOk {
        return Failure(WriteFailed);
      }
      files := files[op.newPath := op.stored];
      if !op.insertOk {
        if op.cleanupOk {
          files := files - {op.newPath};
        }
        return Failure(InsertFailed);
      }
      var row := Record(op.newId, op.input, op.sniffed, mark.hash, mark.size, op.newPath, op.now);
      rows := rows + [row];
      r := Success(row);
    }
  }

  // ----- the index and the files agree

  predicate RowAgrees(hash: Hash, files: map<string, Bytes>, r: Record) {
    r.path in files && hash(files[r.path]) == r.hash
  }

  predicate SizeAgrees(files: map<string, Bytes>, r: Record) {
    r.path in files && |files[r.path]| == r.size
  }

  function Hashes(rows: seq<Record>): set<string> { set r | r in rows :: r.hash }

  function Paths(rows: seq<Record>): set<string> { set r | r in rows :: r.path }

  predicate SameFile(r: Record, s: Record) { r.path == s.path && r.media == s.media }

  predicate Agrees(hash: Hash, a: Archive) {
    && (forall i :: 0 <= i < |a.rows| ==> RowAgrees(hash, a.files, a.rows[i]))
    && (forall i, j :: 0 <= i < |a.rows| && 0 <= j < |a.rows| && a.rows[i].hash == a.rows[j].hash ==>
          SameFile(a.rows[i], a.rows[j]))
    && |Paths(a.rows)| == |Hashes(a.rows)|
  }

  /** No two contents share a digest. */
  ghost predicate CollisionFree(hash: Hash) { forall x: Bytes, y: Bytes :: hash(x) == hash(y) ==> x == y }

  /** The identifiers are new and the source did not change while it was read. */
  predicate Proper(a: Archive, op: Ingest) {
    op.newPath !in a.files && op.stored == op.content && forall i :: 0 <= i < |a.rows| ==> a.rows[i].id != op.newId
  }

  predicate ProperRun(hash: Hash, ops: seq<Ingest>) {
    ops == [] || (ProperRun(hash, ops[..|ops| - 1]) && Proper(IngestAll(hash, ops[..|ops| - 1]), ops[|ops| - 1]))
  }

  /** This ingest leaves a file without a row: a new file was written, its row was not inserted, and
      removing the file failed too. */
  predicate Leaks(hash: Hash, a: Archive, op: Ingest) {
    op.lookupOk && LookupByHash(a.rows, hash(op.content)).None? && op.writeOk && !op.insertOk && !op.cleanupOk
  }

  function LeakCount(hash: Hash, ops: seq<Ingest>): nat {
    if ops == [] then 0
    else
      var before := ops[..|ops| - 1];
      LeakCount(hash, before) + if Leaks(hash, IngestAll(hash, before), ops[|ops| - 1]) then 1 else 0
  }

  lemma {:induction false} LookupFinds(rows: seq<Record>, hash: string)
    ensures LookupByHash(rows, hash).None? <==> hash !in Hashes(rows)
    ensures LookupByHash(rows, hash).Some? ==>
              LookupByHash(rows, hash).value in rows && LookupByHash(rows, hash).value.hash == hash
  {
    if rows != [] {
      var init, last := rows[..|rows| - 1], rows[|rows| - 1];
      LookupFinds(init, hash);
      assert rows == init + [last];
      RowSets(init, last);
    }
  }

  /** The row that deduplication reuses is an oldest one with this hash. */
  lemma {:induction false} LookupIsOldest(rows: seq<Record>, hash: string, r: Record)
    requires r in rows && r.hash == hash
    ensures LookupByHash(rows, hash).Some? && LookupByHash(rows, hash).value.createdAt <= r.createdAt
  {
    var init, last := rows[..|rows| - 1], rows[|rows| - 1];
    assert rows == init + [last];
    if r in init {
      LookupIsOldest(init, hash, r);
    }
  }

  lemma RowSets(rows: seq<Record>, row: Record)
    ensures Hashes(rows + [row]) == Hashes(rows) + {row.hash} && Paths(rows + [row]) == Paths(rows) + {row.path}
  {
    var all := rows + [row];
    assert row in all;
    forall r | r in rows ensures r in all && r.hash in Hashes(all) && r.path in Paths(all) {}
  }

  lemma PathsAreFiles(hash: Hash, a: Archive)
    requires Agrees(hash, a)
    ensures Paths(a.rows) <= a.files.Keys
  {
    forall r | r in a.rows ensures r.path in a.files {
      var i :| 0 <= i < |a.rows| && a.rows[i] == r;
      assert RowAgrees(hash, a.files, a.rows[i]);
    }
  }

  lemma NewRowAgrees(hash: Hash, a: Archive, row: Record, files: map<string, Bytes>)
    requires Agrees(hash, a) && RowAgrees(hash, files, row)
    requires forall p :: p in a.files ==> p in files && files[p] == a.files[p]
    requires if row.hash in Hashes(a.rows) then exists r :: r in a.rows && r.hash == row.hash && SameFile(r, row)
             else row.path !in Paths(a.rows)
    ensures Agrees(hash, Archive(a.rows + [row], files))
  {
    hide Hashes, Paths, RowAgrees;
    var all := a.rows + [row];
    MoreFilesAgree(hash, a, files);
    SharesPath(a.rows, row);
    SameCounts(a.rows, row);
    assert forall i :: 0 <= i < |a.rows| ==> RowAgrees(hash, files, a.rows[i]);
  }

  lemma SameCounts(rows: seq<Record>, row: Record)
    requires |Paths(rows)| == |Hashes(rows)|
    requires if row.hash in Hashes(rows) then exists r :: r in rows && r.hash == row.hash && SameFile(r, row)
             else row.path !in Paths(rows)
    ensures |Paths(rows + [row])| == |Hashes(rows + [row])|
  {
    RowSets(rows, row);
    if row.hash in Hashes(rows) {
      var r :| r in rows && r.hash == row.hash && SameFile(r, row);
      assert r.path in Paths(rows);
      assert Hashes(rows) + {row.hash} == Hashes(rows) && Paths(rows) + {row.path} == Paths(rows);
    }
  }

  /** Equal hashes keep sharing one path when the new row reuses the path of an equal one. */
  lemma SharesPath(rows: seq<Record>, row: Record)
    requires forall i, j :: 0 <= i < |rows| && 0 <= j < |rows| && rows[i].hash == rows[j].hash ==> SameFile(rows[i], rows[j])
    requires row.hash in Hashes(rows) ==> exists r :: r in rows && r.hash == row.hash && SameFile(r, row)
    ensures
      var all := rows + [row];
      forall i, j :: 0 <= i < |all| && 0 <= j < |all| && all[i].hash == all[j].hash ==> SameFile(all[i], all[j])
  {
    forall i | 0 <= i < |rows| && rows[i].hash == row.hash ensures SameFile(rows[i], row) {
      assert rows[i] in rows;
      var r :| r in rows && r.hash == row.hash && SameFile(r, row);
      var j :| 0 <= j < |rows| && rows[j] == r;
    }
  }

  lemma IngestAgrees(hash: Hash, a: Archive, op: Ingest)
    requires Agrees(hash, a) && Proper(a, op)
    ensures Agrees(hash, IngestOne(hash, a, op).0)
  {
    hide Agrees;
    var h := hash(op.content);
    LookupFinds(a.rows, h);
    PathsAreFiles(hash, a);
    var existing := LookupByHash(a.rows, h);
    if op.lookupOk && op.insertOk && existing.Some? {
      var row := RecordFor(hash, op, existing.value.media, existing.value.path);
      ExistingAgrees(hash, a, existing.value, op);
      NewRowAgrees(hash, a, row, a.files);
    } else if op.lookupOk && existing.None? && op.writeOk {
      var files := a.files[op.newPath := op.stored];
      if op.insertOk {
        NewRowAgrees(hash, a, RecordFor(hash, op, op.sniffed, op.newPath), files);
      } else {
        MoreFilesAgree(hash, a, files);
        assert files - {op.newPath} == a.files;
      }
    }
  }

  lemma ExistingAgrees(hash: Hash, a: Archive, existing: Record, op: Ingest)
    requires Agrees(hash, a) && existing in a.rows && existing.hash == hash(op.content)
    ensures existing.path in a.files && hash(a.files[existing.path]) == hash(op.content)
  {
    var i :| 0 <= i < |a.rows| && a.rows[i] == existing;
    assert RowAgrees(hash, a.files, a.rows[i]);
  }

  lemma MoreFilesAgree(hash: Hash, a: Archive, files: map<string, Bytes>)
    requires Agrees(hash, a) && forall p :: p in a.files ==> p in files && files[p] == a.files[p]
    ensures Agrees(hash, a.(files := files))
  {
    forall i | 0 <= i < |a.rows| ensures RowAgrees(hash, files, a.rows[i]) {
      assert RowAgrees(hash, a.files, a.rows[i]);
    }
  }

  lemma IngestCountsFiles(hash: Hash, a: Archive, op: Ingest)
    requires Agrees(hash, a) && Proper(a, op)
    ensures
      var b := IngestOne(hash, a, op).0;
      |b.files| - |Hashes(b.rows)| == |a.files| - |Hashes(a.rows)| + if Leaks(hash, a, op) then 1 else 0
  {
    hide Agrees, LookupByHash, Hashes;
    var h := hash(op.content);
    LookupFinds(a.rows, h);
    var existing := LookupByHash(a.rows, h);
    if op.lookupOk && existing.Some? {
      RowSets(a.rows, RecordFor(hash, op, existing.value.media, existing.value.path));
      assert Hashes(a.rows) + {h} == Hashes(a.rows);
    } else if op.lookupOk && op.writeOk {
      var files := a.files[op.newPath := op.stored];
      assert files.Keys == a.files.Keys + {op.newPath} && files - {op.newPath} == a.files;
      RowSets(a.rows, RecordFor(hash, op, op.sniffed, op.newPath));
    }
  }

  lemma EmptyAgrees(hash: Hash)
    ensures Agrees(hash, EMPTY) && Hashes(EMPTY.rows) == {}
  {
    assert Hashes([]) == {} && Paths([]) == {};
  }

  lemma {:induction false} RunAgrees(hash: Hash, ops: seq<Ingest>)
    requires ProperRun(hash, ops)
    ensures
      var a := IngestAll(hash, ops);
      Agrees(hash, a) && |a.files| == |Hashes(a.rows)| + LeakCount(hash, ops)
  {
    hide Agrees, IngestOne, Leaks;
    if ops == [] {
      EmptyAgrees(hash);
    } else {
      var before, op := ops[..|ops| - 1], ops[|ops| - 1];
      RunAgrees(hash, before);
      IngestAgrees(hash, IngestAll(hash, before), op);
      IngestCountsFiles(hash, IngestAll(hash, before), op);
    }
  }

  /** The index and the files agree in every state reached by non-overlapping ingests, whatever the hash:
      each row's file exists with that row's hash, rows share a path exactly when they share a hash and
      then share the media type, and there are exactly as many files as distinct hashes, plus one for
      each failed insert whose cleanup failed too. */
  lemma {:induction false} IndexAndFilesAgree(hash: Hash, ops: seq<Ingest>)
    requires ProperRun(hash, ops)
    ensures
      var a := IngestAll(hash, ops);
      && (forall r :: r in a.rows ==> r.path in a.files && hash(a.files[r.path]) == r.hash)
      && (forall r, r' :: r in a.rows && r' in a.rows ==> (r.hash == r'.hash <==> r.path == r'.path))
      && (forall r, r' :: r in a.rows && r' in a.rows && r.hash == r'.hash ==> r.media == r'.media)
      && |a.files| == |Hashes(a.rows)| + LeakCount(hash, ops)
  {
    hide IngestAll, ProperRun;
    RunAgrees(hash, ops);
    var a := IngestAll(hash, ops);
    forall r | r in a.rows ensures RowAgrees(hash, a.files, r) {
      var i :| 0 <= i < |a.rows| && a.rows[i] == r;
    }
    forall r, r' | r in a.rows && r' in a.rows && r.hash == r'.hash ensures SameFile(r, r') {
      EqualHashesShare(hash, a, r, r');
    }
    forall r, r' | r in a.rows && r' in a.rows && r.path == r'.path ensures r.hash == r'.hash {
      assert RowAgrees(hash, a.files, r) && RowAgrees(hash, a.files, r');
    }
  }

  lemma EqualHashesShare(hash: Hash, a: Archive, r: Record, r': Record)
    requires Agrees(hash, a) && r in a.rows && r' in a.rows && r.hash == r'.hash
    ensures SameFile(r, r') && RowAgrees(hash, a.files, r)
  {
    var i :| 0 <= i < |a.rows| && a.rows[i] == r;
    var j :| 0 <= j < |a.rows| && a.rows[j] == r';
  }

  /** How an ingest ends, by what failed first; a failed ingest inserts nothing. */
  lemma {:induction false} IngestOutcome(hash: Hash, a: Archive, op: Ingest)
    ensures
      var (b, r) := IngestOne(hash, a, op);
      var known := exists i :: 0 <= i < |a.rows| && a.rows[i].hash == hash(op.content);
      && (r == Failure(LookupFailed) <==> !op.lookupOk)
      && (r == Failure(WriteFailed) <==> op.lookupOk && !known && !op.writeOk)
      && (r == Failure(InsertFailed) <==> op.lookupOk && (known || op.writeOk) && !op.insertOk)
      && (r.Success? <==> op.lookupOk && (known || op.writeOk) && op.insertOk)
      && b.rows == if r.Success? then a.rows + [r.value] else a.rows
  {
    hide LookupByHash;
    LookupFinds(a.rows, hash(op.content));
    if hash(op.content) in Hashes(a.rows) {
      var r :| r in a.rows && r.hash == hash(op.content);
    }
  }

  /** Row `r` points to what ingest `i` of the run wrote: its file, its bytes and its media type. */
  predicate WrittenBy(hash: Hash, ops: seq<Ingest>, files: map<string, Bytes>, r: Record, i: nat) {
    && i < |ops| && r.hash == hash(ops[i].content) && r.path == ops[i].newPath && r.media == ops[i].sniffed
    && r.path in files && files[r.path] == ops[i].stored
    && r.hash !in Hashes(IngestAll(hash, ops[..i]).rows)
  }

  lemma WrittenEarlier(hash: Hash, ops: seq<Ingest>, files: map<string, Bytes>, files': map<string, Bytes>, r: Record, i: nat)
    requires ops != [] && WrittenBy(hash, ops[..|ops| - 1], files, r, i)
    requires forall p :: p in files ==> p in files' && files'[p] == files[p]
    ensures WrittenBy(hash, ops, files', r, i)
  {
    assert ops[..|ops| - 1][..i] == ops[..i];
  }

  /** Every row shares the file and the media type that the first ingest of its content left behind. */
  lemma {:induction false} RowsPointToTheirWriter(hash: Hash, ops: seq<Ingest>, r: Record) returns (i: nat)
    requires ProperRun(hash, ops) && r in IngestAll(hash, ops).rows
    ensures WrittenBy(hash, ops, IngestAll(hash, ops).files, r, i)
    decreases |ops|
  {
    hide WrittenBy, LookupByHash, Hashes;
    var before, op := ops[..|ops| - 1], ops[|ops| - 1];
    var a, b := IngestAll(hash, before), IngestAll(hash, ops);
    LookupFinds(a.rows, hash(op.content));
    IngestExtends(hash, a, op);
    var existing := LookupByHash(a.rows, hash(op.content));
    if r in a.rows {
      i := RowsPointToTheirWriter(hash, before, r);
      WrittenEarlier(hash, ops, a.files, b.files, r, i);
    } else if existing.Some? {
      i := RowsPointToTheirWriter(hash, before, existing.value);
      WrittenEarlier(hash, ops, a.files, b.files, existing.value, i);
      SharesWriter(hash, ops, b.files, existing.value, r, i);
    } else {
      i := |ops| - 1;
      IsWriter(hash, ops, b.files, r);
    }
  }

  lemma SharesWriter(hash: Hash, ops: seq<Ingest>, files: map<string, Bytes>, known: Record, r: Record, i: nat)
    requires WrittenBy(hash, ops, files, known, i) && r.hash == known.hash && SameFile(known, r)
    ensures WrittenBy(hash, ops, files, r, i)
  {}

  lemma IsWriter(hash: Hash, ops: seq<Ingest>, files: map<string, Bytes>, r: Record)
    requires ops != []
    requires
      var op := ops[|ops| - 1];
      && r.hash == hash(op.content) && r.path == op.newPath && r.media == op.sniffed
      && r.path in files && files[r.path] == op.stored
    requires r.hash !in Hashes(IngestAll(hash, ops[..|ops| - 1]).rows)
    ensures WrittenBy(hash, ops, files, r, |ops| - 1)
  {}

  // ----- sizes

  predicate AllSizesAgree(a: Archive) { forall i :: 0 <= i < |a.rows| ==> SizeAgrees(a.files, a.rows[i]) }

  /** Ingest `i` of the run succeeds. */
  predicate Succeeds(hash: Hash, ops: seq<Ingest>, i: nat)
    requires i < |ops|
  {
    IngestOne(hash, IngestAll(hash, ops[..i]), ops[i]).1.Success?
  }

  /** Ingests of this run that succeed and share a hash have contents of one length. */
  predicate SizesAreHashed(hash: Hash, ops: seq<Ingest>) {
    forall i, j :: 0 <= i < |ops| && 0 <= j < |ops| && Succeeds(hash, ops, i) && Succeeds(hash, ops, j) ==>
      hash(ops[i].content) == hash(ops[j].content) ==> |ops[i].content| == |ops[j].content|
  }

  /** Row `r` was inserted by ingest `i`. */
  predicate InsertedBy(hash: Hash, ops: seq<Ingest>, r: Record, i: nat) {
    i < |ops| && Succeeds(hash, ops, i) && r.hash == hash(ops[i].content) && r.size == |ops[i].content|
  }

  lemma InsertedEarlier(hash: Hash, ops: seq<Ingest>, r: Record, i: nat)
    requires i < |ops| - 1
    ensures InsertedBy(hash, ops[..|ops| - 1], r, i) <==> InsertedBy(hash, ops, r, i)
  {
    assert ops[..|ops| - 1][..i] == ops[..i];
  }

  lemma IngestAddsRow(hash: Hash, a: Archive, op: Ingest)
    ensures
      var (b, r) := IngestOne(hash, a, op);
      if r.Success? then b.rows == a.rows + [r.value] && r.value.hash == hash(op.content) && r.value.size == |op.content|
      else b.rows == a.rows
  {}

  lemma {:induction false} RowsAreIngests(hash: Hash, ops: seq<Ingest>, r: Record) returns (i: nat)
    requires r in IngestAll(hash, ops).rows
    ensures InsertedBy(hash, ops, r, i)
  {
    hide IngestOne;
    var before, last := ops[..|ops| - 1], |ops| - 1;
    IngestAddsRow(hash, IngestAll(hash, before), ops[last]);
    if r in IngestAll(hash, before).rows {
      i := RowsAreIngests(hash, before, r);
      InsertedEarlier(hash, ops, r, i);
    } else {
      i := last;
    }
  }

  lemma {:induction false} IngestsAreRows(hash: Hash, ops: seq<Ingest>, i: nat) returns (r: Record)
    requires i < |ops| && Succeeds(hash, ops, i)
    ensures r in IngestAll(hash, ops).rows && InsertedBy(hash, ops, r, i)
  {
    hide IngestOne;
    var before, last := ops[..|ops| - 1], |ops| - 1;
    var a := IngestAll(hash, before);
    IngestAddsRow(hash, a, ops[last]);
    if i < last {
      assert before[..i] == ops[..i];
      r := IngestsAreRows(hash, before, i);
      InsertedEarlier(hash, ops, r, i);
    } else {
      r := IngestOne(hash, a, ops[last]).1.value;
    }
  }

  /** Every hash has a row that knows the size of its file: the one that wrote it. */
  predicate HasWriter(a: Archive, r: Record) {
    exists s :: s in a.rows && s.hash == r.hash && SizeAgrees(a.files, s)
  }

  lemma IngestExtends(hash: Hash, a: Archive, op: Ingest)
    requires Proper(a, op)
    ensures Extends(a, IngestOne(hash, a, op).0)
  {}

  predicate Extends(a: Archive, b: Archive) {
    (forall r :: r in a.rows ==> r in b.rows) && forall p :: p in a.files ==> p in b.files && b.files[p] == a.files[p]
  }

  lemma WriterSurvives(a: Archive, b: Archive, known: Record, r: Record)
    requires Extends(a, b) && HasWriter(a, known) && r.hash == known.hash
    ensures HasWriter(b, r)
  {
    var s :| s in a.rows && s.hash == known.hash && SizeAgrees(a.files, s);
    assert s in b.rows && SizeAgrees(b.files, s);
  }

  lemma IngestKeepsWriters(hash: Hash, a: Archive, op: Ingest)
    requires Proper(a, op) && forall r :: r in a.rows ==> HasWriter(a, r)
    ensures
      var b := IngestOne(hash, a, op).0;
      forall r :: r in b.rows ==> HasWriter(b, r)
  {
    hide HasWriter, Extends, LookupByHash;
    var b, existing := IngestOne(hash, a, op).0, LookupByHash(a.rows, hash(op.content));
    LookupFinds(a.rows, hash(op.content));
    IngestExtends(hash, a, op);
    forall r | r in b.rows ensures HasWriter(b, r) {
      if r in a.rows {
        WriterSurvives(a, b, r, r);
      } else if existing.Some? {
        WriterSurvives(a, b, existing.value, r);
      } else {
        IsOwnWriter(b, r);
      }
    }
  }

  lemma IsOwnWriter(b: Archive, r: Record)
    requires r in b.rows && SizeAgrees(b.files, r)
    ensures HasWriter(b, r)
  {}

  lemma {:induction false} RunHasWriters(hash: Hash, ops: seq<Ingest>)
    requires ProperRun(hash, ops)
    ensures
      var a := IngestAll(hash, ops);
      forall r :: r in a.rows ==> HasWriter(a, r)
  {
    hide IngestOne, Agrees, HasWriter;
    if ops != [] {
      var before := ops[..|ops| - 1];
      RunHasWriters(hash, before);
      RunAgrees(hash, before);
      IngestKeepsWriters(hash, IngestAll(hash, before), ops[|ops| - 1]);
    }
  }

  lemma WriterDecides(hash: Hash, a: Archive, r: Record, s: Record)
    requires Agrees(hash, a) && r in a.rows && s in a.rows && r.hash == s.hash && SizeAgrees(a.files, s)
    ensures SizeAgrees(a.files, r) <==> r.size == s.size
  {
    hide Agrees;
    EqualHashesShare(hash, a, r, s);
  }

  lemma HashedSizesAgree(hash: Hash, ops: seq<Ingest>, r: Record)
    requires ProperRun(hash, ops) && SizesAreHashed(hash, ops) && r in IngestAll(hash, ops).rows
    ensures SizeAgrees(IngestAll(hash, ops).files, r)
  {
    hide IngestAll, ProperRun, Agrees, InsertedBy, SizesAreHashed;
    RunAgrees(hash, ops);
    RunHasWriters(hash, ops);
    var a := IngestAll(hash, ops);
    assert HasWriter(a, r);
    var s :| s in a.rows && s.hash == r.hash && SizeAgrees(a.files, s);
    hide HasWriter;
    var i := RowsAreIngests(hash, ops, r);
    var j := RowsAreIngests(hash, ops, s);
    HashedPair(hash, ops, r, i, s, j);
    WriterDecides(hash, a, r, s);
  }

  lemma HashedPair(hash: Hash, ops: seq<Ingest>, r: Record, i: nat, s: Record, j: nat)
    requires SizesAreHashed(hash, ops) && InsertedBy(hash, ops, r, i) && InsertedBy(hash, ops, s, j) && r.hash == s.hash
    ensures r.size == s.size
  {
    hide Succeeds;
  }

  lemma AgreeingSizesAreHashed(hash: Hash, ops: seq<Ingest>, i: nat, j: nat)
    requires ProperRun(hash, ops) && AllSizesAgree(IngestAll(hash, ops))
    requires i < |ops| && j < |ops| && Succeeds(hash, ops, i) && Succeeds(hash, ops, j)
    requires hash(ops[i].content) == hash(ops[j].content)
    ensures |ops[i].content| == |ops[j].content|
  {
    hide IngestAll, ProperRun, Agrees, Succeeds;
    RunAgrees(hash, ops);
    var r := IngestsAreRows(hash, ops, i);
    var s := IngestsAreRows(hash, ops, j);
    var a := IngestAll(hash, ops);
    WriterDecides(hash, a, r, s);
  }

  /** Every row has the size of its file if and only if successful ingests with one hash had contents of
      one length; a collision-free hash sees to that. */
  lemma {:induction false} SizesAgreeIff(hash: Hash, ops: seq<Ingest>)
    requires ProperRun(hash, ops)
    ensures AllSizesAgree(IngestAll(hash, ops)) <==> SizesAreHashed(hash, ops)
    ensures CollisionFree(hash) ==> SizesAreHashed(hash, ops)
  {
    hide IngestAll, ProperRun, Succeeds, SizeAgrees;
    var a := IngestAll(hash, ops);
    if SizesAreHashed(hash, ops) {
      forall i | 0 <= i < |a.rows| ensures SizeAgrees(a.files, a.rows[i]) {
        HashedSizesAgree(hash, ops, a.rows[i]);
      }
    }
    if AllSizesAgree(a) {
      hide AllSizesAgree;
      forall i, j | 0 <= i < |ops| && 0 <= j < |ops| && Succeeds(hash, ops, i) && Succeeds(hash, ops, j)
                    && hash(ops[i].content) == hash(ops[j].content)
        ensures |ops[i].content| == |ops[j].content|
      {
        AgreeingSizesAreHashed(hash, ops, i, j);
      }
    }
  }

  // ----- downloads

  lemma {:induction false} FindByIdSnoc(rows: seq<Record>, row: Record, id: string)
    ensures FindById(rows + [row], id) ==
              if FindById(rows, id).Some? then FindById(rows, id) else if row.id == id then Some(row) else None
  {
    if rows == [] {
      assert rows + [row] == [row];
    } else {
      assert (rows + [row])[1..] == rows[1..] + [row];
      FindByIdSnoc(rows[1..], row, id);
    }
  }

  lemma {:induction false} FindByIdFinds(rows: seq<Record>, id: string)
    ensures FindById(rows, id).Some? ==> FindById(rows, id).value in rows && FindById(rows, id).value.id == id
    ensures FindById(rows, id).None? ==> forall i :: 0 <= i < |rows| ==> rows[i].id != id
  {
    if rows != [] {
      FindByIdFinds(rows[1..], id);
      assert forall i :: 1 <= i < |rows| ==> rows[1..][i - 1] == rows[i];
    }
  }

  /** An ingest never disturbs an earlier record. */
  lemma IngestKeepsRows(hash: Hash, a: Archive, op: Ingest, id: string)
    requires FindById(a.rows, id).Some?
    ensures FindById(IngestOne(hash, a, op).0.rows, id) == FindById(a.rows, id)
  {
    hide FindById;
    var existing := LookupByHash(a.rows, hash(op.content));
    if existing.Some? {
      FindByIdSnoc(a.rows, RecordFor(hash, op, existing.value.media, existing.value.path), id);
    } else {
      FindByIdSnoc(a.rows, RecordFor(hash, op, op.sniffed, op.newPath), id);
    }
  }

  lemma IngestedIsFound(hash: Hash, a: Archive, op: Ingest)
    requires Proper(a, op) && IngestOne(hash, a, op).1.Success?
    ensures
      var (b, r) := IngestOne(hash, a, op);
      && FindById(b.rows, r.value.id) == Some(r.value) && r.value.hash == hash(op.content)
      && r.value.id == op.newId && r.value.input == op.input && r.value.createdAt == op.now
  {
    hide FindById;
    FindByIdFinds(a.rows, op.newId);
    FindByIdSnoc(a.rows, IngestOne(hash, a, op).1.value, op.newId);
  }

  lemma {:induction false} LaterRunKeepsRow(hash: Hash, ops: seq<Ingest>, i: nat, id: string)
    requires i <= |ops| && FindById(IngestAll(hash, ops[..i]).rows, id).Some?
    ensures FindById(IngestAll(hash, ops).rows, id) == FindById(IngestAll(hash, ops[..i]).rows, id)
    decreases |ops|
  {
    hide FindById, IngestOne;
    if i == |ops| {
      assert ops[..i] == ops;
    } else {
      var before := ops[..|ops| - 1];
      assert before[..i] == ops[..i];
      LaterRunKeepsRow(hash, before, i, id);
      IngestKeepsRows(hash, IngestAll(hash, before), ops[|ops| - 1], id);
    }
  }

  lemma {:induction false} ProperPrefix(hash: Hash, ops: seq<Ingest>, i: nat)
    requires ProperRun(hash, ops) && i < |ops|
    ensures ProperRun(hash, ops[..i]) && Proper(IngestAll(hash, ops[..i]), ops[i])
    decreases |ops|
  {
    if i < |ops| - 1 {
      ProperPrefix(hash, ops[..|ops| - 1], i);
      assert ops[..|ops| - 1][..i] == ops[..i];
    }
  }

  /** Downloading an ingested file returns the ingested bytes, whatever was ingested since. */
  lemma {:induction false} DownloadReturnsIngestedBytes(hash: Hash, ops: seq<Ingest>, i: nat)
    requires CollisionFree(hash) && ProperRun(hash, ops) && i < |ops|
    requires IngestOne(hash, IngestAll(hash, ops[..i]), ops[i]).1.Success?
    ensures
      var id := IngestOne(hash, IngestAll(hash, ops[..i]), ops[i]).1.value.id;
      Download(IngestAll(hash, ops), id) == Success(ops[i].content)
  {
    hide IngestOne, FindById, ProperRun, Agrees;
    ProperPrefix(hash, ops, i);
    var a := IngestAll(hash, ops[..i]);
    IngestedIsFound(hash, a, ops[i]);
    var r := IngestOne(hash, a, ops[i]).1.value;
    assert ops[..i + 1][..i] == ops[..i];
    LaterRunKeepsRow(hash, ops, i + 1, r.id);
    RunAgrees(hash, ops);
    var final := IngestAll(hash, ops);
    FindByIdFinds(final.rows, r.id);
    ExistingAgrees(hash, final, r, ops[i]);
  }

  /** In every reachable archive a download fails only for an id that no row has. */
  lemma {:induction false} DownloadsNeverMiss(hash: Hash, ops: seq<Ingest>, id: string)
    requires ProperRun(hash, ops)
    ensures
      var a := IngestAll(hash, ops);
      if exists i :: 0 <= i < |a.rows| && a.rows[i].id == id then Download(a, id).Success?
      else Download(a, id) == Failure(NotFound)
  {
    hide IngestAll, ProperRun, FindById;
    var a := IngestAll(hash, ops);
    FindByIdFinds(a.rows, id);
    IndexAndFilesAgree(hash, ops);
    if FindById(a.rows, id).Some? {
      var i :| 0 <= i < |a.rows| && a.rows[i] == FindById(a.rows, id).value;
      assert a.rows[i].id == id;
    }
  }

  // ----- when the source changes between the two reads

  /** If the file written differs from the content fingerprinted, the archive still agrees exactly when
      the hash happens to be the same, and the new row has the right size exactly when the length is. */
  lemma {:induction false} ChangedSourceBreaksAgreement(hash: Hash, a: Archive, op: Ingest)
    requires Agrees(hash, a) && op.newPath !in a.files
    requires op.lookupOk && op.writeOk && op.insertOk && LookupByHash(a.rows, hash(op.content)).None?
    ensures
      var (b, r) := IngestOne(hash, a, op);
      && r.Success?
      && (Agrees(hash, b) <==> hash(op.stored) == hash(op.content))
      && (SizeAgrees(b.files, r.value) <==> |op.stored| == |op.content|)
  {
    hide Hashes, Paths;
    LookupFinds(a.rows, hash(op.content));
    PathsAreFiles(hash, a);
    var files := a.files[op.newPath := op.stored];
    var row := RecordFor(hash, op, op.sniffed, op.newPath);
    var b := IngestOne(hash, a, op).0;
    assert b == Archive(a.rows + [row], files) && b.rows[|a.rows|] == row;
    if RowAgrees(hash, files, row) {
      NewRowAgrees(hash, a, row, files);
    }
  }
}
