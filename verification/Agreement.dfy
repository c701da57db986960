/** The remote pipeline and the local routine compute the same parity, and either can undo it. */
module Agreement {
  import opened Bytes
  import opened Slots
  import opened Pipeline
  import PipelineSafety
  import Ordering
  import Delivery
  import Guarantees
  import opened Wrappers
  import LocalXor

  /** A run that delivered `streams`, overtook nowhere, lost no byte to a write, and ended RIGHT. */
  ghost predicate RemoteRight(l: Limits, streams: seq<seq<byte>>, acts: seq<Action>) {
    && Delivery.Streams(l, streams)
    && Runs(l, Initial(|streams|), acts) && Guarantees.DeliversRun(l, streams, Initial(|streams|), acts)
    && Ordering.OvertakeFree(l, Initial(|streams|), acts)
    && After(l, Initial(|streams|), acts).phase == Returned(Verdict.Right)
    && After(l, Initial(|streams|), acts).faults == [] && AllWhole(After(l, Initial(|streams|), acts).drains)
  }

  ghost function RemoteOutput(l: Limits, streams: seq<seq<byte>>, acts: seq<Action>): seq<byte>
    requires RemoteRight(l, streams, acts)
  {
    After(l, Initial(|streams|), acts).outFile
  }

  /** RIGHT means the whole XOR. */
  lemma RemoteIsXor(l: Limits, streams: seq<seq<byte>>, acts: seq<Action>)
    requires RemoteRight(l, streams, acts)
    ensures SameLength(streams) && RemoteOutput(l, streams, acts) == XorAll(streams)
  {
    Guarantees.OrderlyOutput(l, streams, acts);
    PipelineSafety.InitialInvariant(l, |streams|);
    PipelineSafety.RunKeeps(l, Initial(|streams|), acts);
  }

  /** Any two RIGHT runs on the same streams agree, whatever their slot sizes and schedules. */
  lemma RemoteDeterministic(l: Limits, k: Limits, streams: seq<seq<byte>>, acts: seq<Action>, other: seq<Action>)
    requires RemoteRight(l, streams, acts) && RemoteRight(k, streams, other)
    ensures RemoteOutput(l, streams, acts) == RemoteOutput(k, streams, other)
  {
    RemoteIsXor(l, streams, acts);
    RemoteIsXor(k, streams, other);
  }

  /** The parity in place of stream `m`, sent through the pipeline again, gives stream `m` back. */
  lemma RemoteReconstruction(l: Limits, streams: seq<seq<byte>>, acts: seq<Action>, m: nat, again: seq<Action>)
    requires RemoteRight(l, streams, acts) && m < |streams|
    requires RemoteRight(l, streams[m := RemoteOutput(l, streams, acts)], again)
    ensures RemoteOutput(l, streams[m := RemoteOutput(l, streams, acts)], again) == streams[m]
  {
    RemoteIsXor(l, streams, acts);
    RemoteIsXor(l, streams[m := RemoteOutput(l, streams, acts)], again);
    ParityRestores(streams, m);
  }

  /** Run on local copies of the streams, the local routine writes what the pipeline wrote. */
  method LocalAgrees(files: seq<LocalXor.InFile>, bufs: seq<array<byte>>, out: LocalXor.OutFile, size: nat, chunk: nat,
                     rounds: nat, ghost l: Limits, ghost acts: seq<Action>) returns (r: Option<LocalXor.Code>)
    requires LocalXor.Prepared(files, bufs, size, chunk) && forall i :: 0 <= i < |files| ==> files[i].pos == 0
    requires out.content == [] && RemoteRight(l, LocalXor.Contents(files), acts)
    modifies files, bufs, out
    ensures r == Some(LocalXor.Right) ==> out.content == RemoteOutput(l, LocalXor.Contents(files), acts)
  {
    r := LocalXor.XorFiles(files, bufs, out, size, chunk, rounds);
    RemoteIsXor(l, LocalXor.Contents(files), acts);
  }

  /** And with the parity in place of file `m`, it writes file `m`. */
  method LocalReconstruction(files: seq<LocalXor.InFile>, bufs: seq<array<byte>>, out: LocalXor.OutFile, size: nat,
                             chunk: nat, rounds: nat, ghost originals: seq<seq<byte>>, ghost m: nat)
    returns (r: Option<LocalXor.Code>)
    requires LocalXor.Prepared(files, bufs, size, chunk) && forall i :: 0 <= i < |files| ==> files[i].pos == 0
    requires SameLength(originals) && m < |originals|
    requires out.content == [] && LocalXor.Contents(files) == originals[m := XorAll(originals)]
    modifies files, bufs, out
    ensures r == Some(LocalXor.Right) ==> out.content == originals[m]
  {
    r := LocalXor.XorFiles(files, bufs, out, size, chunk, rounds);
    ParityRestores(originals, m);
  }
}
