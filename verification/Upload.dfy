/**
 The upload pipeline: the viewer's chunking sender under any backpressure, the agent's
 file handlers, and what a whole conversation can and cannot do to the folder.
 */
module Upload {
  import opened Basics
  import opened FileTransfer

  const FILE_CHUNK_BYTES := 64 * 1024
  const BUFFERED_AMOUNT_HIGH := 4 * 1024 * 1024
  const MAX_FILE_CHUNK_BYTES := 256 * 1024

  // ---------------------------------------------------------------- the sender

  function Chunks(data: Bytes): seq<Bytes> {
    if |data| <= FILE_CHUNK_BYTES then (if data == [] then [] else [data])
    else [data[..FILE_CHUNK_BYTES]] + Chunks(data[FILE_CHUNK_BYTES..])
  }

  function Concat(chunks: seq<Bytes>): Bytes {
    if chunks == [] then [] else Concat(chunks[..|chunks| - 1]) + chunks[|chunks| - 1]
  }

  lemma {:induction false} ConcatHead(chunks: seq<Bytes>)
    requires chunks != []
    ensures Concat(chunks) == chunks[0] + Concat(chunks[1..])
  {
    if |chunks| > 1 {
      var front := chunks[..|chunks| - 1];
      ConcatHead(front);
      assert chunks[1..][..|chunks[1..]| - 1] == front[1..];
      assert front[0] + Concat(front[1..]) + chunks[|chunks| - 1] == chunks[0] + Concat(chunks[1..]);
    } else {
      assert chunks[..0] == [] && chunks[1..] == [];
    }
  }

  /** The chunks put together are the data, and the agent never finds one too large. */
  lemma {:induction false} ChunksAreTheData(data: Bytes)
    ensures Concat(Chunks(data)) == data
    ensures forall i :: 0 <= i < |Chunks(data)| ==> 1 <= |Chunks(data)[i]| <= FILE_CHUNK_BYTES
  {
    if |data| > FILE_CHUNK_BYTES {
      ChunksAreTheData(data[FILE_CHUNK_BYTES..]);
      ConcatHead(Chunks(data));
      assert Chunks(data)[1..] == Chunks(data[FILE_CHUNK_BYTES..]);
    } else if data != [] {
      ConcatHead([data]);
      assert [data][1..] == [];
    }
  }

  lemma {:induction false} ConcatPrefix(chunks: seq<Bytes>, k: nat)
    requires k <= |chunks|
    ensures Concat(chunks[..k]) <= Concat(chunks)
  {
    if k < |chunks| {
      ConcatPrefix(chunks[..|chunks| - 1], k);
      assert chunks[..|chunks| - 1][..k] == chunks[..k];
    } else {
      assert chunks[..k] == chunks;
    }
  }

  /** However far the sender got, it handed over a prefix of the data. */
  lemma SentIsPrefix(data: Bytes, k: nat)
    requires k <= |Chunks(data)|
    ensures Concat(Chunks(data)[..k]) <= data
    ensures k == |Chunks(data)| ==> Concat(Chunks(data)[..k]) == data
  {
    ChunksAreTheData(data);
    ConcatPrefix(Chunks(data), k);
    assert Chunks(data)[..|Chunks(data)|] == Chunks(data);
  }

  /** What one poll of the page sees. A run of the sender is given the polls it will make;
      when they run out it is still waiting. */
  datatype Poll = Poll(cancelled: bool, open: bool, bufferedAmount: nat)

  datatype Outcome = Completed | Stopped | StillWaiting

  class DataChannel {
    var sent: seq<Bytes>

    constructor ()
      ensures sent == []
    {
      sent := [];
    }

    method Send(chunk: Bytes)
      modifies this
      ensures sent == old(sent) + [chunk]
    {
      sent := sent + [chunk];
    }
  }

  /** Consumes polls until the buffer has drained to `target`, or the transfer is off. */
  method WaitForBufferBelow(target: nat, polls: seq<Poll>, start: nat) returns (next: nat, outcome: Outcome)
    requires start <= |polls|
    ensures start <= next <= |polls|
    ensures outcome.Completed? ==> start < next && polls[next - 1].bufferedAmount <= target
    ensures outcome.Stopped? ==> start < next && (polls[next - 1].cancelled || !polls[next - 1].open)
    ensures outcome.StillWaiting? ==> next == |polls|
    ensures forall i :: start <= i < next - 1 ==>
              polls[i].bufferedAmount > target && !polls[i].cancelled && polls[i].open
  {
    next := start;
    while next < |polls| && polls[next].bufferedAmount > target
      invariant start <= next <= |polls|
      invariant forall i :: start <= i < next ==>
                polls[i].bufferedAmount > target && !polls[i].cancelled && polls[i].open
    {
      if polls[next].cancelled || !polls[next].open {
        return next + 1, Stopped;
      }
      next := next + 1;
    }
    if next == |polls| {
      return next, StillWaiting;
    }
    return next + 1, Completed;
  }

  lemma ChunkAt(data: Bytes, k: nat, offset: nat)
    requires k <= |Chunks(data)| && offset <= |data| && Chunks(data[offset..]) == Chunks(data)[k..]
    ensures offset < |data| ==>
              var end := if offset + FILE_CHUNK_BYTES < |data| then offset + FILE_CHUNK_BYTES else |data|;
              && k < |Chunks(data)| && Chunks(data)[k] == data[offset..end]
              && Chunks(data[end..]) == Chunks(data)[k + 1..]
    ensures offset == |data| ==> k == |Chunks(data)|
  {
    var rest := data[offset..];
    if offset + FILE_CHUNK_BYTES < |data| {
      assert rest[..FILE_CHUNK_BYTES] == data[offset..offset + FILE_CHUNK_BYTES];
      assert rest[FILE_CHUNK_BYTES..] == data[offset + FILE_CHUNK_BYTES..];
      assert Chunks(data)[k..][1..] == Chunks(data)[k + 1..];
    } else if offset < |data| {
      assert Chunks(data)[k..] == [rest];
      assert data[|data|..] == [];
      assert Chunks(data)[k..][1..] == Chunks(data)[k + 1..];
    } else {
      assert rest == [];
    }
  }

  /** Each chunk has a poll of its own that found room in the buffer and nothing wrong. */
  ghost predicate SentWithRoom(polls: seq<Poll>, sentAt: seq<nat>, limit: nat) {
    && limit <= |polls|
    && (forall i :: 0 <= i < |sentAt| ==>
          && sentAt[i] < limit && polls[sentAt[i]].bufferedAmount <= BUFFERED_AMOUNT_HIGH
          && !polls[sentAt[i]].cancelled && polls[sentAt[i]].open)
    && (forall i, j :: 0 <= i < j < |sentAt| ==> sentAt[i] < sentAt[j])
  }

  lemma SendUsesPoll(polls: seq<Poll>, sentAt: seq<nat>, limit: nat)
    requires SentWithRoom(polls, sentAt, limit) && limit < |polls|
    ensures SentWithRoom(polls, sentAt, limit + 1)
    ensures var poll := polls[limit];
            !poll.cancelled && poll.open && poll.bufferedAmount <= BUFFERED_AMOUNT_HIGH ==>
              SentWithRoom(polls, sentAt + [limit], limit + 1)
  {
  }

  lemma WaitUsesPolls(polls: seq<Poll>, sentAt: seq<nat>, limit: nat, next: nat)
    requires SentWithRoom(polls, sentAt, limit) && limit <= next <= |polls|
    ensures SentWithRoom(polls, sentAt, next)
  {
  }

  /** Under any schedule of polls the channel receives the first chunks, in order, one for each
      poll in `sentAt`; `Completed` means all of them and that the poll after the last found the channel open. */
  method StreamFileChunks(channel: DataChannel, data: Bytes, polls: seq<Poll>)
    returns (ghost sentAt: seq<nat>, progress: nat, outcome: Outcome)
    modifies channel
    ensures |sentAt| <= |Chunks(data)| && channel.sent == old(channel.sent) + Chunks(data)[..|sentAt|]
    ensures SentWithRoom(polls, sentAt, |polls|)
    ensures progress == |Concat(Chunks(data)[..|sentAt|])|
    ensures outcome.Completed? ==> |sentAt| == |Chunks(data)|
    ensures outcome.Completed? ==>
              exists i :: 0 <= i < |polls| && !polls[i].cancelled && polls[i].open && SentWithRoom(polls, sentAt, i)
    ensures outcome.Stopped? ==> exists i :: 0 <= i < |polls| && (polls[i].cancelled || !polls[i].open)
  {
    var offset: nat, next: nat := 0, 0;
    sentAt := [];
    assert SentWithRoom(polls, [], 0);
    assert data[0..] == data && Chunks(data)[0..] == Chunks(data);
    hide Chunks, SentWithRoom;
    while offset < |data|
      invariant next <= |polls| && offset <= |data| && |sentAt| <= |Chunks(data)|
      invariant Chunks(data[offset..]) == Chunks(data)[|sentAt|..]
      invariant channel.sent == old(channel.sent) + Chunks(data)[..|sentAt|]
      invariant SentWithRoom(polls, sentAt, next)
      invariant offset == |Concat(Chunks(data)[..|sentAt|])|
      decreases |polls| - next, |data| - offset
    {
      WaitUsesPolls(polls, sentAt, next, |polls|);
      if next == |polls| {
        return sentAt, offset, StillWaiting;
      }
      var poll := polls[next];
      if poll.cancelled || !poll.open {
        return sentAt, offset, Stopped;
      }
      SendUsesPoll(polls, sentAt, next);
      next := next + 1;
      if poll.bufferedAmount > BUFFERED_AMOUNT_HIGH {
        ghost var asked := next;
        var waited: Outcome;
        next, waited := WaitForBufferBelow(BUFFERED_AMOUNT_HIGH / 2, polls, next);
        WaitUsesPolls(polls, sentAt, asked, next);
        if !waited.Completed? {
          return sentAt, offset, waited;
        }
        continue;
      }
      ChunkAt(data, |sentAt|, offset);
      var end := if offset + FILE_CHUNK_BYTES < |data| then offset + FILE_CHUNK_BYTES else |data|;
      channel.Send(data[offset..end]);
      assert Chunks(data)[..|sentAt| + 1][..|sentAt|] == Chunks(data)[..|sentAt|];
      offset := end;
      sentAt := sentAt + [next - 1];
    }
    ChunkAt(data, |sentAt|, offset);
    WaitUsesPolls(polls, sentAt, next, |polls|);
    if next == |polls| {
      return sentAt, offset, StillWaiting;
    }
    assert SentWithRoom(polls, sentAt, next);
    return sentAt, offset, if !polls[next].cancelled && polls[next].open then Completed else Stopped;
  }

  // ---------------------------------------------------------------- the agent's handlers

  type TransferId = nat

  datatype Reply =
    | FilesDisabled(id: TransferId)
    | Busy(id: TransferId)
    | Failed(id: TransferId, code: Code)
    | ChunkTooLarge(id: TransferId)
    | Accepted(id: TransferId)
    | Done(id: TransferId, savedAs: string)

  /** The agent's side: the folder, and the receiver of the transfer in progress. */
  datatype Desk = Desk(folder: Folder, receiver: Option<Receiver>, transfer: TransferId)

  datatype Handled = Handled(desk: Desk, replies: seq<Reply>)

  datatype Env = Env(enabled: bool, maxBytes: int, lower: string -> string, hash: Bytes -> string)

  predicate DeskValid(d: Desk) {
    d.receiver.Some? ==> HandleValid(Stage(d.folder, d.receiver.value))
  }

  function Reset(d: Desk): Desk {
    if d.receiver.None? then d
    else d.(folder := Abort(Stage(d.folder, d.receiver.value)).folder, receiver := None)
  }

  function OnOffer(d: Desk, id: TransferId, o: Offer, env: Env): Handled {
    if !env.enabled then Handled(d, [FilesDisabled(id)])
    else if d.receiver.Some? then Handled(d, [Busy(id)])
    else
      var begun := Begin(Stage(d.folder, NewReceiver(env.maxBytes)), o, env.lower);
      if begun.problem.Some? then Handled(d, [Failed(id, begun.problem.value)])
      else Handled(Desk(begun.stage.folder, Some(begun.stage.receiver), id), [Accepted(id)])
  }

  function OnChunk(d: Desk, chunk: Bytes): Handled
    requires DeskValid(d)
  {
    if d.receiver.None? then Handled(d, [])
    else if |chunk| > MAX_FILE_CHUNK_BYTES then Handled(Reset(d), [ChunkTooLarge(d.transfer)])
    else
      var written := WriteChunk(Stage(d.folder, d.receiver.value), chunk);
      var d1 := d.(folder := written.stage.folder, receiver := Some(written.stage.receiver));
      if written.problem.Some? then Handled(Reset(d1), [Failed(d.transfer, written.problem.value)]) else Handled(d1, [])
  }

  function OnComplete(d: Desk, id: TransferId, env: Env): Handled
    requires DeskValid(d)
  {
    if d.receiver.None? || id != d.transfer then Handled(d, [])
    else
      var f := Finish(Stage(d.folder, d.receiver.value), env.hash);
      var d1 := d.(folder := f.stage.folder, receiver := Some(f.stage.receiver));
      match f.published
      case Err(code) => Handled(Reset(d1), [Failed(id, code)])
      case Ok(savedAs) => Handled(d1.(receiver := None), [Done(id, savedAs)])
  }

  datatype Event =
    | Offered(id: TransferId, offer: Offer)
    | ChunkArrives(chunk: Bytes)
    | CompleteArrives(id: TransferId)
    | Cancelled
    | ChannelOrPeerClosed

  function Handle(d: Desk, e: Event, env: Env): Handled
    requires DeskValid(d)
  {
    match e
    case Offered(id, offer) => OnOffer(d, id, offer, env)
    case ChunkArrives(chunk) => OnChunk(d, chunk)
    case CompleteArrives(id) => OnComplete(d, id, env)
    case Cancelled => Handled(Reset(d), [])
    case ChannelOrPeerClosed => Handled(Reset(d), [])
  }

  class FileDesk {
    const directory: Directory
    const enabled: bool
    const lower: string -> string
    const hash: Bytes -> string
    var fileReceiver: FileReceiver?
    var fileTransferId: TransferId
    var replies: seq<Reply>

    function View(): Desk
      reads this, directory, fileReceiver
    {
      Desk(directory.files, if fileReceiver == null then None else Some(fileReceiver.View()), fileTransferId)
    }

    function Environment(): Env { Env(enabled, MAX_FILE_BYTES, lower, hash) }

    predicate Valid()
      reads this, directory, fileReceiver
    {
      && (fileReceiver != null ==> fileReceiver.directory == directory)
      && DeskValid(View())
    }

    /** The event was handled: folder, receiver and replies are as specified. */
    ghost predicate Answered(h: Handled, repliesBefore: seq<Reply>)
      reads this, directory, fileReceiver
    {
      && (fileReceiver != null ==> fileReceiver.directory == directory)
      && View().folder == h.desk.folder && View().receiver == h.desk.receiver
      && (h.desk.receiver.Some? ==> fileTransferId == h.desk.transfer)
      && replies == repliesBefore + h.replies
    }

    constructor (directory: Directory, enabled: bool, lower: string -> string, hash: Bytes -> string)
      ensures Valid() && this.directory == directory && View() == Desk(directory.files, None, 0) && replies == []
    {
      this.directory, this.enabled, this.lower, this.hash := directory, enabled, lower, hash;
      fileReceiver, fileTransferId, replies := null, 0, [];
    }

    method ResetFileTransfer()
      requires fileReceiver != null ==> fileReceiver.directory == directory
      modifies this`fileReceiver, directory, fileReceiver
      ensures View() == Reset(old(View())) && fileReceiver == null
    {
      if fileReceiver != null {
        fileReceiver.AbortTransfer();
        fileReceiver := null;
      }
    }

    method HandleOffer(id: TransferId, o: Offer)
      requires Valid()
      modifies this, directory
      ensures Answered(Handle(old(View()), Offered(id, o), Environment()), old(replies))
    {
      if !enabled {
        replies := replies + [FilesDisabled(id)];
        return;
      }
      if fileReceiver != null {
        replies := replies + [Busy(id)];
        return;
      }
      var receiver := new FileReceiver(directory);
      var problem := receiver.BeginTransfer(o, lower);
      if problem.Some? {
        replies := replies + [Failed(id, problem.value)];
        return;
      }
      fileReceiver := receiver;
      fileTransferId := id;
      replies := replies + [Accepted(id)];
    }

    method HandleChunk(chunk: Bytes)
      requires Valid()
      modifies this, directory, fileReceiver
      ensures Answered(Handle(old(View()), ChunkArrives(chunk), Environment()), old(replies))
    {
      if fileReceiver == null {
        return;
      }
      if |chunk| > MAX_FILE_CHUNK_BYTES {
        ResetFileTransfer();
        replies := replies + [ChunkTooLarge(fileTransferId)];
        return;
      }
      var problem := fileReceiver.Write(chunk);
      if problem.Some? {
        ResetFileTransfer();
        replies := replies + [Failed(fileTransferId, problem.value)];
      }
    }

    method HandleComplete(id: TransferId)
      requires Valid()
      modifies this, directory, fileReceiver
      ensures Answered(Handle(old(View()), CompleteArrives(id), Environment()), old(replies))
    {
      if fileReceiver == null || id != fileTransferId {
        return;
      }
      var published := fileReceiver.FinishTransfer(hash);
      if published.Err? {
        ResetFileTransfer();
        replies := replies + [Failed(id, published.error)];
        return;
      }
      replies := replies + [Done(id, published.value)];
      fileReceiver := null;
    }

    method HandleCancelOrClose()
      requires Valid()
      modifies this, directory, fileReceiver
      ensures Answered(Handle(old(View()), Cancelled, Environment()), old(replies))
      ensures Answered(Handle(old(View()), ChannelOrPeerClosed, Environment()), old(replies))
    {
      ResetFileTransfer();
    }
  }
}
