/**
 * `run`: read every configured path in order and write each record that could
 * be read as a JSON sidecar beside its image. A failure, of the read or of the
 * write, is reported for that path only and the batch goes on; `run` itself
 * always succeeds.
 */
module Batch {
  import opened Wrappers
  import opened Exif
  import opened Paths
  import opened Metadata
  import opened Serializer
  import opened Cli

  /** What the file system and the EXIF reader report for each path; a path not in the map does not exist. */
  type World = map<Path, Source>

  /** ENOENT */
  const NoSuchFile: IoError := IoError(2)

  function SourceAt(world: World, p: Path): Source {
    if p in world then world[p] else Source(Err(NoSuchFile), Err(OpenFailed(NoSuchFile)))
  }

  /** Whether a path's record can be read at all: a regular file whose container opens. */
  predicate Readable(s: Source) {
    s.stat.Ok? && s.stat.value.isFile && s.exif.Ok?
  }

  /** The record read from path `p` (the diagnostics go to the console). */
  function RecordOf(p: Path, world: World, parse: DateTimeParser): (r: Result<MetadataOfInterest, ReadError>)
    ensures r.Ok? <==> Readable(SourceAt(world, p))
    ensures r.Ok? ==> r.value.file.filename == FileName(p)
  {
    ReadMetadataOfInterest(p, SourceAt(world, p), parse).0
  }

  /** One sidecar written: where, and the object written there. */
  datatype Write = Write(target: Path, content: JsonObject)

  /**
   * The directory tree the sidecars go to: what each written path holds, a
   * ghost log of the writes in the order they happened, and the targets
   * `fs::write` fails on.
   */
  class SidecarStore {
    var files: map<Path, JsonObject>
    ghost var log: seq<Write>
    const unwritable: set<Path>

    constructor (files: map<Path, JsonObject>, unwritable: set<Path>)
      ensures this.files == files && this.unwritable == unwritable && this.log == []
    {
      this.files := files;
      this.unwritable := unwritable;
      this.log := [];
    }

    /** `write_json_metadata`: replaces whatever `target` held, unless the write fails. */
    method WriteJson(target: Path, content: JsonObject) returns (ok: bool)
      modifies this
      ensures ok <==> target !in unwritable
      ensures files == if ok then old(files)[target := content] else old(files)
      ensures log == if ok then old(log) + [Write(target, content)] else old(log)
    {
      ok := target !in unwritable;
      if ok {
        files := files[target := content];
        log := log + [Write(target, content)];
      }
    }
  }

  /**
   * What handling the record read from `p` writes: nothing when the record
   * could not be read or the sidecar cannot be written, and otherwise the
   * serialized record at the sidecar path of `p`.
   */
  function WriteOf(p: Path, record: Result<MetadataOfInterest, ReadError>, unwritable: set<Path>): (ws: seq<Write>)
    ensures |ws| <= 1
    ensures ws != [] ==> ws[0].target == SidecarPath(p)
    ensures ws != [] <==> record.Ok? && SidecarPath(p) !in unwritable
    ensures ws != [] ==> Deserialize(ws[0].content) == Ok(record.value)
  {
    if record.Err? || SidecarPath(p) in unwritable then []
    else DeserializeSerialize(record.value); [Write(SidecarPath(p), Serialize(record.value))]
  }

  /** What processing one path writes. */
  function WritesFor(p: Path, world: World, parse: DateTimeParser, unwritable: set<Path>): (ws: seq<Write>)
    ensures |ws| <= 1
  {
    WriteOf(p, RecordOf(p, world, parse), unwritable)
  }

  /**
   * A path writes exactly when it is a regular file whose container opens and
   * its sidecar path can be written, and what it writes reads back as the
   * record read from the path.
   */
  lemma WritesForReadsBack(p: Path, world: World, parse: DateTimeParser, unwritable: set<Path>)
    ensures WritesFor(p, world, parse, unwritable) != [] <==> Readable(SourceAt(world, p)) && SidecarPath(p) !in unwritable
    ensures WritesFor(p, world, parse, unwritable) != [] ==>
      Deserialize(WritesFor(p, world, parse, unwritable)[0].content) == Ok(RecordOf(p, world, parse).value)
  {
    var record := RecordOf(p, world, parse);
    if record.Ok? {
      DeserializeSerialize(record.value);
    }
  }

  /** A write made while processing `p` is the sidecar of `p`, holding the record read from `p`. */
  lemma WriteIsSidecarOf(w: Write, p: Path, world: World, parse: DateTimeParser, unwritable: set<Path>)
    requires w in WritesFor(p, world, parse, unwritable)
    ensures Readable(SourceAt(world, p))
    ensures w.target == SidecarPath(p)
    ensures Deserialize(w.content) == Ok(RecordOf(p, world, parse).value)
  {
    WritesForReadsBack(p, world, parse, unwritable);
    assert w == WritesFor(p, world, parse, unwritable)[0];
  }

  /** What processing one path writes, as a function of the path. */
  function StepOf(world: World, parse: DateTimeParser, unwritable: set<Path>): Path -> seq<Write> {
    p => WritesFor(p, world, parse, unwritable)
  }

  /** Everything a batch over `paths` writes, in order, when processing `p` writes `step(p)`. */
  function Concat(paths: seq<Path>, step: Path -> seq<Write>): seq<Write>
    decreases |paths|
  {
    if paths == [] then [] else Concat(paths[..|paths| - 1], step) + step(paths[|paths| - 1])
  }

  /** Everything a batch over `paths` writes, in order. */
  function Writes(paths: seq<Path>, world: World, parse: DateTimeParser, unwritable: set<Path>): (ws: seq<Write>)
    ensures |ws| <= |paths|
  {
    var step := StepOf(world, parse, unwritable);
    ConcatLength(paths, step);
    Concat(paths, step)
  }

  /** A batch writes at most once per path. */
  lemma {:induction false} ConcatLength(paths: seq<Path>, step: Path -> seq<Write>)
    requires forall p :: |step(p)| <= 1
    ensures |Concat(paths, step)| <= |paths|
    decreases |paths|
  {
    if paths != [] {
      ConcatLength(paths[..|paths| - 1], step);
    }
  }

  /** Processing two lists one after the other writes what each writes, in order. */
  lemma {:induction false} ConcatAppend(ps: seq<Path>, qs: seq<Path>, step: Path -> seq<Write>)
    ensures Concat(ps + qs, step) == Concat(ps, step) + Concat(qs, step)
    decreases |qs|
  {
    if qs == [] {
      assert ps + qs == ps;
    } else {
      var qs' := qs[..|qs| - 1];
      assert (ps + qs)[..|ps + qs| - 1] == ps + qs';
      ConcatAppend(ps, qs', step);
    }
  }

  /** Whatever processing one of the paths writes is among the writes of the batch. */
  lemma {:induction false} ConcatContains(ps: seq<Path>, i: nat, step: Path -> seq<Write>)
    requires i < |ps|
    ensures forall w :: w in step(ps[i]) ==> w in Concat(ps, step)
  {
    var head := ps[..i];
    var tail := ps[i + 1..];
    assert ps == head + [ps[i]] + tail;
    ConcatAppend(head + [ps[i]], tail, step);
    assert (head + [ps[i]])[..|head|] == head;
  }

  /** Every write of the batch comes from processing one of its paths. */
  lemma {:induction false} ConcatOrigin(ps: seq<Path>, k: nat, step: Path -> seq<Write>)
    requires k < |Concat(ps, step)|
    ensures exists i :: 0 <= i < |ps| && Concat(ps, step)[k] in step(ps[i])
    decreases |ps|
  {
    var init := ps[..|ps| - 1];
    var last := ps[|ps| - 1];
    if k < |Concat(init, step)| {
      ConcatOrigin(init, k, step);
      var i :| 0 <= i < |init| && Concat(init, step)[k] in step(init[i]);
      assert ps[i] == init[i];
    } else {
      assert Concat(ps, step)[k] in step(last);
    }
  }

  /**
   * What processing a path writes last decides its target: a later path that
   * is a different path writes elsewhere, and the same path writes the same again.
   */
  lemma {:induction false} LastWriteWins(files: map<Path, JsonObject>, ps: seq<Path>, i: nat, step: Path -> seq<Write>, w: Write)
    requires i < |ps| && step(ps[i]) == [w]
    requires forall j :: i < j < |ps| && ps[j] != ps[i] ==> forall v :: v in step(ps[j]) ==> v.target != w.target
    ensures w.target in Apply(files, Concat(ps, step))
    ensures Apply(files, Concat(ps, step))[w.target] == w.content
  {
    var tail := ps[i + 1..];
    ConcatAt(ps, i, step);
    var before, later := Concat(ps[..i], step), Concat(tail, step);
    ApplyAppend(files, before + [w], later);
    ApplySnoc(files, before, w);
    forall j | 0 <= j < |tail|
      ensures forall v :: v in step(tail[j]) && v.target == w.target ==> v.content == w.content
    {
      assert tail[j] == ps[i + 1 + j];
    }
    ConcatAgrees(tail, step, w.target, w.content);
    ApplyKeeps(Apply(files, before + [w]), later, w.target, w.content);
  }

  /** The writes of a batch are those before a path, that path's, and those after it. */
  lemma {:induction false} ConcatAt(ps: seq<Path>, i: nat, step: Path -> seq<Write>)
    requires i < |ps|
    ensures Concat(ps, step) == Concat(ps[..i], step) + step(ps[i]) + Concat(ps[i + 1..], step)
  {
    var head, tail := ps[..i + 1], ps[i + 1..];
    assert Concat(ps, step) == Concat(head, step) + Concat(tail, step) by {
      assert ps == head + tail;
      ConcatAppend(head, tail, step);
    }
    assert Concat(head, step) == Concat(ps[..i], step) + step(ps[i]) by {
      assert head[..i] == ps[..i];
    }
  }

  /** When every path puts only `c` at `t`, so does the whole batch. */
  lemma {:induction false} ConcatAgrees(ps: seq<Path>, step: Path -> seq<Write>, t: Path, c: JsonObject)
    requires forall j :: 0 <= j < |ps| ==> forall v :: v in step(ps[j]) && v.target == t ==> v.content == c
    ensures forall k :: 0 <= k < |Concat(ps, step)| && Concat(ps, step)[k].target == t ==> Concat(ps, step)[k].content == c
  {
    forall k | 0 <= k < |Concat(ps, step)| && Concat(ps, step)[k].target == t
      ensures Concat(ps, step)[k].content == c
    {
      ConcatOrigin(ps, k, step);
    }
  }

  /**
   * Processing a path again, when every different path processed in between
   * writes elsewhere, rewrites what its target already holds: no file changes.
   */
  lemma {:induction false} RepeatChangesNothing(files: map<Path, JsonObject>, ps: seq<Path>, p: Path, qs: seq<Path>, step: Path -> seq<Write>)
    requires |step(p)| <= 1
    requires forall j :: 0 <= j < |qs| && qs[j] != p ==>
      forall v, u :: v in step(qs[j]) && u in step(p) ==> v.target != u.target
    ensures Apply(files, Concat(ps + [p] + qs + [p], step)) == Apply(files, Concat(ps + [p] + qs, step))
  {
    var rs := ps + [p] + qs;
    var once := Concat(rs, step);
    assert Concat(ps + [p] + qs + [p], step) == once + step(p) by {
      assert (rs + [p])[..|rs|] == rs;
      assert ps + [p] + qs + [p] == rs + [p];
    }
    if step(p) == [] {
      assert once + step(p) == once;
    } else {
      var w := step(p)[0];
      var m := Apply(files, once);
      assert w.target in m && m[w.target] == w.content by {
        assert step(p) == [w];
        forall j | |ps| < j < |rs| && rs[j] != rs[|ps|]
          ensures forall v :: v in step(rs[j]) ==> v.target != w.target
        {
          assert rs[j] == qs[j - |ps| - 1];
        }
        LastWriteWins(files, rs, |ps|, step, w);
      }
      assert step(p) == [w];
      ApplySnoc(files, once, w);
      assert m[w.target := w.content] == m;
    }
  }

  /** The files after a sequence of writes, each replacing what its target held. */
  function Apply(files: map<Path, JsonObject>, ws: seq<Write>): (r: map<Path, JsonObject>)
    ensures files.Keys <= r.Keys
    decreases |ws|
  {
    if ws == [] then files
    else Apply(files, ws[..|ws| - 1])[ws[|ws| - 1].target := ws[|ws| - 1].content]
  }

  /**
   * `run`: visits the paths in order and processes each one; a failure is
   * reported and skipped. It always returns success, and what it writes is
   * exactly `Writes` of the configured paths.
   */
  method Run(config: Config, world: World, parse: DateTimeParser, store: SidecarStore) returns (r: Outcome<string>)
    modifies store
    ensures r == Pass
    ensures store.log == old(store.log) + Writes(config.imagePaths, world, parse, store.unwritable)
    ensures store.files == Apply(old(store.files), Writes(config.imagePaths, world, parse, store.unwritable))
  {
    var paths := config.imagePaths;
    ghost var done: seq<Write> := [];
    for i := 0 to |paths|
      invariant done == Writes(paths[..i], world, parse, store.unwritable)
      invariant store.log == old(store.log) + done
      invariant store.files == Apply(old(store.files), done)
    {
      ghost var written := ProcessPath(paths, i, world, parse, store);
      ApplyAppend(old(store.files), done, written);
      done := done + written;
    }
    assert paths[..|paths|] == paths;
    r := Pass;
  }

  /**
   * One turn of `run`'s loop: read the record of the `i`-th path and handle
   * it. What it writes extends the batch's writes so far by that path's.
   */
  method ProcessPath(paths: seq<Path>, i: nat, world: World, parse: DateTimeParser, store: SidecarStore) returns (ghost written: seq<Write>)
    requires i < |paths|
    modifies store
    ensures Writes(paths[..i + 1], world, parse, store.unwritable) == Writes(paths[..i], world, parse, store.unwritable) + written
    ensures store.log == old(store.log) + written
    ensures store.files == Apply(old(store.files), written)
  {
    var read := RecordOf(paths[i], world, parse);
    written := HandleRecord(paths[i], read, store);
    WritesStep(paths, i, world, parse, store.unwritable);
  }

  /**
   * The body of `run`'s loop once the record of `p` is read: write it to the
   * sidecar, or report the failure. What it writes is `WriteOf(p, read)`.
   */
  method HandleRecord(p: Path, read: Result<MetadataOfInterest, ReadError>, store: SidecarStore) returns (ghost written: seq<Write>)
    modifies store
    ensures written == WriteOf(p, read, store.unwritable)
    ensures store.log == old(store.log) + written
    ensures store.files == Apply(old(store.files), written)
  {
    written := [];
    if read.Ok? {
      var target := SidecarPath(p);
      var ok := store.WriteJson(target, Serialize(read.value));
      if ok {
        written := [Write(target, Serialize(read.value))];
        assert written[..0] == [];
      }
    }
  }

  /** Applying two runs of writes one after the other is applying them together. */
  lemma {:induction false} ApplyAppend(files: map<Path, JsonObject>, ws: seq<Write>, vs: seq<Write>)
    ensures Apply(files, ws + vs) == Apply(Apply(files, ws), vs)
    decreases |vs|
  {
    if vs == [] {
      assert ws + vs == ws;
    } else {
      var vs' := vs[..|vs| - 1];
      assert (ws + vs)[..|ws + vs| - 1] == ws + vs';
      ApplyAppend(files, ws, vs');
    }
  }

  /** A target that no write names keeps what it held, or stays absent. */
  lemma {:induction false} ApplyFrame(files: map<Path, JsonObject>, ws: seq<Write>, t: Path)
    requires forall k :: 0 <= k < |ws| ==> ws[k].target != t
    ensures t in Apply(files, ws) <==> t in files
    ensures t in files ==> Apply(files, ws)[t] == files[t]
    decreases |ws|
  {
    if ws != [] {
      ApplyFrame(files, ws[..|ws| - 1], t);
    }
  }

  /** A target holding `c` still holds it after writes that put only `c` there. */
  lemma {:induction false} ApplyKeeps(files: map<Path, JsonObject>, ws: seq<Write>, t: Path, c: JsonObject)
    requires t in files && files[t] == c
    requires forall k :: 0 <= k < |ws| && ws[k].target == t ==> ws[k].content == c
    ensures t in Apply(files, ws) && Apply(files, ws)[t] == c
    decreases |ws|
  {
    if ws != [] {
      ApplyKeeps(files, ws[..|ws| - 1], t, c);
    }
  }

  /** The batch over one more of the paths writes what the next path writes, after the rest. */
  lemma {:induction false} WritesStep(paths: seq<Path>, i: nat, world: World, parse: DateTimeParser, unwritable: set<Path>)
    requires i < |paths|
    ensures Writes(paths[..i + 1], world, parse, unwritable)
      == Writes(paths[..i], world, parse, unwritable) + WriteOf(paths[i], RecordOf(paths[i], world, parse), unwritable)
  {
    assert paths[..i + 1] == paths[..i] + [paths[i]];
    WritesSnoc(paths[..i], paths[i], world, parse, unwritable);
  }

  /** Processing one more path writes what that path writes, after the rest. */
  lemma {:induction false} WritesSnoc(ps: seq<Path>, p: Path, world: World, parse: DateTimeParser, unwritable: set<Path>)
    ensures Writes(ps + [p], world, parse, unwritable) == Writes(ps, world, parse, unwritable) + WritesFor(p, world, parse, unwritable)
  {
    assert (ps + [p])[..|ps|] == ps;
  }

  /** The last write to a target decides what it holds. */
  lemma {:induction false} ApplySnoc(files: map<Path, JsonObject>, ws: seq<Write>, w: Write)
    ensures Apply(files, ws + [w]) == Apply(files, ws)[w.target := w.content]
  {
    assert (ws + [w])[..|ws|] == ws;
  }

  /** A batch over two lists writes what the first writes, then what the second writes. */
  lemma {:induction false} WritesAppend(ps: seq<Path>, qs: seq<Path>, world: World, parse: DateTimeParser, unwritable: set<Path>)
    ensures Writes(ps + qs, world, parse, unwritable) == Writes(ps, world, parse, unwritable) + Writes(qs, world, parse, unwritable)
  {
    ConcatAppend(ps, qs, StepOf(world, parse, unwritable));
  }

  /** A path that cannot be read writes nothing and does not change what the rest of the batch writes. */
  lemma {:induction false} UnreadablePathWritesNothing(ps: seq<Path>, p: Path, qs: seq<Path>, world: World, parse: DateTimeParser, unwritable: set<Path>)
    requires !Readable(SourceAt(world, p))
    ensures Writes(ps + [p] + qs, world, parse, unwritable) == Writes(ps + qs, world, parse, unwritable)
  {
    WritesAppend(ps + [p], qs, world, parse, unwritable);
    WritesAppend(ps, [p], world, parse, unwritable);
    WritesAppend(ps, qs, world, parse, unwritable);
    assert Writes([p], world, parse, unwritable) == [] by {
      assert [p][..0] == [];
    }
  }

  /**
   * Every readable path with a writable sidecar path gets its sidecar, holding
   * its record, whatever else the batch holds.
   */
  lemma {:induction false} ReadablePathIsWritten(ps: seq<Path>, i: nat, world: World, parse: DateTimeParser, unwritable: set<Path>)
    requires i < |ps| && Readable(SourceAt(world, ps[i])) && SidecarPath(ps[i]) !in unwritable
    ensures exists w :: (w in Writes(ps, world, parse, unwritable)
      && w.target == SidecarPath(ps[i])
      && Deserialize(w.content) == Ok(RecordOf(ps[i], world, parse).value))
  {
    var step := StepOf(world, parse, unwritable);
    ConcatContains(ps, i, step);
    WritesForReadsBack(ps[i], world, parse, unwritable);
    var w := WritesFor(ps[i], world, parse, unwritable)[0];
    assert w in step(ps[i]);
  }

  /**
   * Every write of a batch is the sidecar of one of its paths, holding the
   * record read from that path: nothing is written for a path that cannot be read.
   */
  lemma {:induction false} EveryWriteIsASidecar(ps: seq<Path>, k: nat, world: World, parse: DateTimeParser, unwritable: set<Path>)
    requires k < |Writes(ps, world, parse, unwritable)|
    ensures exists i :: (0 <= i < |ps|
      && Readable(SourceAt(world, ps[i]))
      && Writes(ps, world, parse, unwritable)[k].target == SidecarPath(ps[i])
      && Deserialize(Writes(ps, world, parse, unwritable)[k].content) == Ok(RecordOf(ps[i], world, parse).value))
  {
    var step := StepOf(world, parse, unwritable);
    ConcatOrigin(ps, k, step);
    var i :| 0 <= i < |ps| && Concat(ps, step)[k] in step(ps[i]);
    WriteIsSidecarOf(Writes(ps, world, parse, unwritable)[k], ps[i], world, parse, unwritable);
  }

  /**
   * After the batch, the sidecar of a readable path holds that path's record,
   * provided no later path of the batch is a different path with the same
   * sidecar (such as `a.png` after `a.jpg`).
   */
  lemma {:induction false} SidecarHoldsLastRecord(files: map<Path, JsonObject>, ps: seq<Path>, i: nat, world: World, parse: DateTimeParser, unwritable: set<Path>)
    requires i < |ps| && Readable(SourceAt(world, ps[i])) && SidecarPath(ps[i]) !in unwritable
    requires forall j :: i < j < |ps| && SidecarPath(ps[j]) == SidecarPath(ps[i]) ==> ps[j] == ps[i]
    ensures SidecarPath(ps[i]) in Apply(files, Writes(ps, world, parse, unwritable))
    ensures Deserialize(Apply(files, Writes(ps, world, parse, unwritable))[SidecarPath(ps[i])])
      == Ok(RecordOf(ps[i], world, parse).value)
  {
    var step := StepOf(world, parse, unwritable);
    var ws := WritesFor(ps[i], world, parse, unwritable);
    assert ws != [] && Deserialize(ws[0].content) == Ok(RecordOf(ps[i], world, parse).value) by {
      WritesForReadsBack(ps[i], world, parse, unwritable);
    }
    var w := ws[0];
    assert step(ps[i]) == [w];
    forall j | i < j < |ps| && ps[j] != ps[i]
      ensures forall v :: v in step(ps[j]) ==> v.target != w.target
    {
      StepTargets(ps[j], world, parse, unwritable);
    }
    LastWriteWins(files, ps, i, step, w);
  }

  /** Whatever processing a path writes goes to its sidecar. */
  lemma StepTargets(p: Path, world: World, parse: DateTimeParser, unwritable: set<Path>)
    ensures forall v :: v in StepOf(world, parse, unwritable)(p) ==> v.target == SidecarPath(p)
  {
  }

  /** A file that is the sidecar of no path of the batch is left as it was. */
  lemma {:induction false} OnlySidecarsChange(files: map<Path, JsonObject>, ps: seq<Path>, t: Path, world: World, parse: DateTimeParser, unwritable: set<Path>)
    requires forall i :: 0 <= i < |ps| ==> SidecarPath(ps[i]) != t
    ensures t in Apply(files, Writes(ps, world, parse, unwritable)) <==> t in files
    ensures t in files ==> Apply(files, Writes(ps, world, parse, unwritable))[t] == files[t]
  {
    var ws := Writes(ps, world, parse, unwritable);
    forall k | 0 <= k < |ws|
      ensures ws[k].target != t
    {
      EveryWriteIsASidecar(ps, k, world, parse, unwritable);
    }
    ApplyFrame(files, ws, t);
  }

  /**
   * Naming a path again, when no path in between is a different path with the
   * same sidecar, rewrites that sidecar with what it already holds: the files
   * end up as without the repetition.
   */
  lemma {:induction false} DuplicatePathRewritesSameSidecar(files: map<Path, JsonObject>, ps: seq<Path>, p: Path, qs: seq<Path>, world: World, parse: DateTimeParser, unwritable: set<Path>)
    requires forall j :: 0 <= j < |qs| && SidecarPath(qs[j]) == SidecarPath(p) ==> qs[j] == p
    ensures Apply(files, Writes(ps + [p] + qs + [p], world, parse, unwritable))
      == Apply(files, Writes(ps + [p] + qs, world, parse, unwritable))
  {
    var step := StepOf(world, parse, unwritable);
    forall j | 0 <= j < |qs| && qs[j] != p
      ensures forall v, u :: v in step(qs[j]) && u in step(p) ==> v.target != u.target
    {
      StepTargets(qs[j], world, parse, unwritable);
      StepTargets(p, world, parse, unwritable);
    }
    RepeatChangesNothing(files, ps, p, qs, step);
  }
}
