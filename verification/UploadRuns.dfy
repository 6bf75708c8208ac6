/**
 Whole upload conversations: files only ever appear verified and under fresh names, no
 temporary file outlives its transfer, and an undisturbed upload arrives intact.
 */
module UploadRuns {
  import opened Basics
  import opened FileTransfer
  import opened Upload

  predicate Hidden(name: string) { name != [] && name[0] == '.' }

  predicate CleanName(name: string, env: Env) {
    SanitizeFilename(Some(name), env.lower) == Some(name) && !IsBlockedExtension(name, env.lower)
  }

  /** The receiver of a transfer in progress agrees with its temporary file and its offer. */
  predicate ReceiverSound(folder: Folder, r: Receiver, env: Env) {
    && r.writing && !r.finished && r.maxBytes == env.maxBytes
    && CleanName(r.name, env) && MatchesDigest(r.declaredSha)
    && r.temp == Some(TempName(r.name, r.declaredSha))
    && r.temp.value in folder && folder[r.temp.value] == r.digested
    && r.received == |r.digested| <= r.declaredSize <= r.maxBytes
  }

  predicate DeskSound(d: Desk, env: Env) {
    d.receiver.Some? ==> ReceiverSound(d.folder, d.receiver.value, env)
  }

  function TempOf(d: Desk): Option<string> { if d.receiver.Some? then d.receiver.value.temp else None }

  lemma NewNamesAreClean(folder: Folder, name: string, env: Env)
    requires CleanName(name, env)
    ensures UniqueDestination(folder, name).Some? ==>
              var f := UniqueDestination(folder, name).value;
              f !in folder && !Hidden(f) && !IsBlockedExtension(f, env.lower)
  {
    FirstFreeIsClean(folder, name, 1, env);
  }

  lemma {:induction false} FirstFreeIsClean(folder: Folder, name: string, index: nat, env: Env)
    requires index <= MAX_COLLISIONS && CleanName(name, env)
    ensures FirstFree(folder, name, index).Some? ==>
              var f := FirstFree(folder, name, index).value;
              && f !in folder && !Hidden(f) && !IsBlockedExtension(f, env.lower)
              && exists i: nat :: f == Alternative(name, i)
    decreases MAX_COLLISIONS - index
  {
    if index == MAX_COLLISIONS {
    } else {
      AlternativeKeepsSuffix(name, index);
      FirstFreeIsClean(folder, name, index + 1, env);
    }
  }

  // ---------------------------------------------------------------- one event

  lemma OfferKeepsSound(d: Desk, id: TransferId, o: Offer, env: Env)
    requires DeskSound(d, env)
    ensures DeskSound(OnOffer(d, id, o, env).desk, env)
  {
    SanitizingKeepsName(o.name, env.lower);
    hide SanitizeFilename, IsBlockedExtension, MatchesDigest;
  }

  lemma HandleKeepsSound(d: Desk, e: Event, env: Env)
    requires DeskSound(d, env)
    ensures DeskSound(Handle(d, e, env).desk, env)
  {
    hide OnOffer, CleanName, MatchesDigest, UniqueDestination;
    if e.Offered? {
      OfferKeepsSound(d, e.id, e.offer, env);
    }
  }

  ghost predicate KeepsVisible(before: Folder, after: Folder) {
    forall f :: f in before && !Hidden(f) ==> f in after && after[f] == before[f]
  }

  ghost predicate KeepsHiddenBut(before: Folder, after: Folder, temp: Option<string>) {
    forall f :: Hidden(f) && Some(f) != temp ==>
        (f in after <==> f in before) && (f in before ==> after[f] == before[f])
  }

  ghost predicate AddsNothingVisible(before: Folder, after: Folder) {
    forall f :: f in after && !Hidden(f) ==> f in before
  }

  /** The temporary file whose content an event may touch. */
  function TouchedTemp(d: Desk, after: Desk): Option<string> {
    if TempOf(d).Some? then TempOf(d) else TempOf(after)
  }

  lemma ReceiverKeepsFolder(d: Desk, e: Event, env: Env)
    requires DeskSound(d, env) && !e.CompleteArrives?
    ensures var after := Handle(d, e, env).desk;
            && KeepsVisible(d.folder, after.folder) && AddsNothingVisible(d.folder, after.folder)
            && KeepsHiddenBut(d.folder, after.folder, TouchedTemp(d, after))
            && (TempOf(d).Some? && after.receiver.None? ==> TempOf(d).value !in after.folder)
  {
    hide SanitizeFilename, IsBlockedExtension, MatchesDigest;
  }

  lemma CompletionPublishes(d: Desk, e: Event, env: Env)
    requires DeskSound(d, env) && e.CompleteArrives?
    ensures var after := Handle(d, e, env).desk;
            && KeepsVisible(d.folder, after.folder)
            && (forall f :: f in after.folder && f !in d.folder && !Hidden(f) ==> IsPublication(d, e, env, f))
            && KeepsHiddenBut(d.folder, after.folder, TouchedTemp(d, after))
            && (TempOf(d).Some? && after.receiver.None? ==> TempOf(d).value !in after.folder)
  {
    hide SanitizeFilename, IsBlockedExtension, MatchesDigest, UniqueDestination;
    if d.receiver.Some? {
      NewNamesAreClean(d.folder, d.receiver.value.name, env);
    }
  }

  /** What an event may do to the folder: visible files stay as they are, a new one is the
      verified content of the transfer just completed, hidden files change only as the
      transfer's own temporary file, and that is gone once the transfer is over. */
  lemma FolderChangesOnlyByPublication(d: Desk, e: Event, env: Env)
    requires DeskSound(d, env)
    ensures var after := Handle(d, e, env).desk;
            && KeepsVisible(d.folder, after.folder)
            && (forall f :: f in after.folder && f !in d.folder && !Hidden(f) ==> IsPublication(d, e, env, f))
            && KeepsHiddenBut(d.folder, after.folder, TouchedTemp(d, after))
            && (TempOf(d).Some? && after.receiver.None? ==> TempOf(d).value !in after.folder)
  {
    hide KeepsHiddenBut, KeepsVisible, IsPublication, Handle, DeskSound;
    if e.CompleteArrives? {
      CompletionPublishes(d, e, env);
    } else {
      ReceiverKeepsFolder(d, e, env);
    }
  }

  /** Event `e` completed the transfer of `d` and published it as `f`. */
  predicate IsPublication(d: Desk, e: Event, env: Env, f: string)
    requires DeskSound(d, env)
  {
    && e.CompleteArrives? && d.receiver.Some? && e.id == d.transfer
    && var (h, r) := (Handle(d, e, env), d.receiver.value);
    && h.replies == [Done(e.id, f)] && h.desk.receiver.None?
    && f !in d.folder && !Hidden(f) && !IsBlockedExtension(f, env.lower)
    && f in h.desk.folder && h.desk.folder[f] == r.digested
    && |r.digested| == r.declaredSize && env.hash(r.digested) == r.declaredSha
  }

  /** A reply of `Done` is always a publication. */
  lemma DoneMeansPublished(d: Desk, e: Event, env: Env, f: string)
    requires DeskSound(d, env)
    requires exists id :: Done(id, f) in Handle(d, e, env).replies
    ensures IsPublication(d, e, env, f)
  {
    hide SanitizeFilename, IsBlockedExtension, MatchesDigest, UniqueDestination;
    if d.receiver.Some? {
      NewNamesAreClean(d.folder, d.receiver.value.name, env);
    }
  }

  // ---------------------------------------------------------------- runs

  function After(start: Desk, events: seq<Event>, env: Env): (d: Desk)
    requires DeskSound(start, env)
    ensures DeskSound(d, env)
  {
    if events == [] then start
    else
      var before := After(start, events[..|events| - 1], env);
      HandleKeepsSound(before, events[|events| - 1], env);
      Handle(before, events[|events| - 1], env).desk
  }

  /** The event opened a new transfer. */
  predicate Opens(d: Desk, e: Event, env: Env) {
    e.Offered? && d.receiver.None? && OnOffer(d, e.id, e.offer, env).desk.receiver.Some?
  }

  datatype Conversation = Conversation(offer: Offer, chunks: seq<Bytes>)

  /** The latest accepted offer and the chunks that arrived after it, from the events alone
      but for which offers were accepted. */
  function Latest(start: Desk, events: seq<Event>, env: Env): Option<Conversation>
    requires DeskSound(start, env)
  {
    if events == [] then None
    else
      var front, e := events[..|events| - 1], events[|events| - 1];
      var before := Latest(start, front, env);
      if Opens(After(start, front, env), e, env) then Some(Conversation(e.offer, []))
      else if e.ChunkArrives? && before.Some? then Some(before.value.(chunks := before.value.chunks + [e.chunk]))
      else before
  }

  predicate Follows(r: Receiver, c: Option<Conversation>) {
    && c.Some?
    && c.value.offer == Offer(Some(r.name), Some(r.declaredSize), Some(r.declaredSha))
    && r.digested == Concat(c.value.chunks)
  }

  lemma OpeningFollows(d: Desk, e: Event, env: Env)
    requires Opens(d, e, env)
    ensures Follows(Handle(d, e, env).desk.receiver.value, Some(Conversation(e.offer, [])))
  {
    hide IsBlockedExtension, MatchesDigest;
  }

  lemma ChunkFollows(d: Desk, e: Event, env: Env, c: Conversation)
    requires DeskSound(d, env) && d.receiver.Some? && Follows(d.receiver.value, Some(c))
    requires e.ChunkArrives? && Handle(d, e, env).desk.receiver.Some?
    ensures Follows(Handle(d, e, env).desk.receiver.value, Some(c.(chunks := c.chunks + [e.chunk])))
  {
    assert (c.chunks + [e.chunk])[..|c.chunks|] == c.chunks;
  }

  lemma OthersFollow(d: Desk, e: Event, env: Env)
    requires DeskSound(d, env) && !Opens(d, e, env) && Handle(d, e, env).desk.receiver.Some?
    ensures d.receiver.Some?
    ensures !e.ChunkArrives? ==> Handle(d, e, env).desk.receiver == d.receiver
  {
    hide SanitizeFilename, IsBlockedExtension, MatchesDigest, UniqueDestination;
  }

  /** What the receiver has digested is the concatenation of the chunks since its offer. */
  lemma {:induction false} ReceiverFollowsConversation(start: Desk, events: seq<Event>, env: Env)
    requires DeskSound(start, env) && start.receiver.None?
    ensures After(start, events, env).receiver.Some? ==>
              Follows(After(start, events, env).receiver.value, Latest(start, events, env))
  {
    if events == [] {
    } else {
      hide Follows, Opens, Handle;
      var front, e := events[..|events| - 1], events[|events| - 1];
      var d := After(start, front, env);
      ReceiverFollowsConversation(start, front, env);
      if After(start, events, env).receiver.Some? {
        if Opens(d, e, env) {
          OpeningFollows(d, e, env);
        } else {
          OthersFollow(d, e, env);
          FollowsIsSome(d.receiver.value, Latest(start, front, env));
          if e.ChunkArrives? {
            ChunkFollows(d, e, env, Latest(start, front, env).value);
          }
        }
      }
    }
  }

  lemma FollowsIsSome(r: Receiver, c: Option<Conversation>)
    requires Follows(r, c)
    ensures c.Some?
  {
  }

  /** A file is published only with exactly the bytes of the chunks that followed its offer,
      of the offered size and digest, under a name that was free and is not blocked. */
  lemma PublishedMatchesOffer(start: Desk, events: seq<Event>, e: Event, env: Env, id: TransferId, f: string)
    requires DeskSound(start, env) && start.receiver.None?
    requires Done(id, f) in Handle(After(start, events, env), e, env).replies
    ensures Latest(start, events, env).Some?
    ensures var c := Latest(start, events, env).value;
            var before := After(start, events, env).folder;
            var after := Handle(After(start, events, env), e, env).desk.folder;
            && f !in before && !Hidden(f) && !IsBlockedExtension(f, env.lower)
            && f in after && after[f] == Concat(c.chunks)
            && Some(|after[f]|) == c.offer.size && Some(env.hash(after[f])) == c.offer.sha
  {
    hide Handle, After, Latest, IsBlockedExtension;
    var d := After(start, events, env);
    DoneMeansPublished(d, e, env, f);
    ReceiverFollowsConversation(start, events, env);
  }

  /** In every run the visible files there were stay unchanged, and no temporary file of ours
      is left whenever no transfer is in progress. */
  lemma {:induction false} FolderIsProtected(start: Desk, events: seq<Event>, env: Env)
    requires DeskSound(start, env) && start.receiver.None?
    ensures var d := After(start, events, env);
            && (forall f :: f in start.folder && !Hidden(f) ==> f in d.folder && d.folder[f] == start.folder[f])
            && (forall f :: f in d.folder && Hidden(f) && f !in start.folder ==> Some(f) == TempOf(d))
  {
    if events == [] {
    } else {
      hide Handle, DeskSound, IsPublication;
      var front, e := events[..|events| - 1], events[|events| - 1];
      var d := After(start, front, env);
      FolderIsProtected(start, front, env);
      FolderChangesOnlyByPublication(d, e, env);
      if d.receiver.Some? && Handle(d, e, env).desk.receiver.Some? {
        OneTransferAtATime(d, e, env);
      }
    }
  }

  /** Event `e`, coming after `events`, completed a conversation and published it as `f`: these
      are the bytes of its chunks, of the size and digest it offered. */
  predicate Publishes(start: Desk, events: seq<Event>, e: Event, env: Env, f: string, content: Bytes)
    requires DeskSound(start, env)
  {
    && e.CompleteArrives? && Done(e.id, f) in Handle(After(start, events, env), e, env).replies
    && Latest(start, events, env).Some?
    && var c := Latest(start, events, env).value;
    && content == Concat(c.chunks) && Some(|content|) == c.offer.size && Some(env.hash(content)) == c.offer.sha
  }

  lemma NewFileIsPublished(start: Desk, events: seq<Event>, e: Event, env: Env, f: string)
    requires DeskSound(start, env) && start.receiver.None?
    requires var d := After(start, events, env);
             f !in d.folder && !Hidden(f) && f in Handle(d, e, env).desk.folder
    ensures Publishes(start, events, e, env, f, Handle(After(start, events, env), e, env).desk.folder[f])
  {
    var d := After(start, events, env);
    FolderChangesOnlyByPublication(d, e, env);
    assert IsPublication(d, e, env, f);
    hide After, Latest, IsBlockedExtension, Handle, DeskSound;
    PublishedMatchesOffer(start, events, e, env, e.id, f);
  }

  /** Some event of the run did so. */
  predicate WasPublished(start: Desk, events: seq<Event>, env: Env, f: string, content: Bytes)
    requires DeskSound(start, env)
  {
    exists k | 0 <= k < |events| :: Publishes(start, events[..k], events[k], env, f, content)
  }

  lemma PublishedEarlier(start: Desk, events: seq<Event>, env: Env, f: string, content: Bytes)
    requires DeskSound(start, env) && events != []
    ensures WasPublished(start, events[..|events| - 1], env, f, content) ==>
              WasPublished(start, events, env, f, content)
  {
    hide DeskSound, Publishes;
    var front := events[..|events| - 1];
    if WasPublished(start, front, env, f, content) {
      var k :| 0 <= k < |front| && Publishes(start, front[..k], front[k], env, f, content);
      assert front[..k] == events[..k] && front[k] == events[k];
    }
  }

  /** In every run each visible file that was not there at the start is exactly what some
      conversation of the run completed. */
  lemma {:induction false} NewFilesArePublished(start: Desk, events: seq<Event>, env: Env, f: string)
    requires DeskSound(start, env) && start.receiver.None?
    requires f in After(start, events, env).folder && f !in start.folder && !Hidden(f)
    ensures WasPublished(start, events, env, f, After(start, events, env).folder[f])
  {
    if events == [] {
    } else {
      var n := |events| - 1;
      var d := After(start, events[..n], env);
      hide Handle, DeskSound, Publishes, IsPublication;
      if f in d.folder {
        NewFilesArePublished(start, events[..n], env, f);
        FolderChangesOnlyByPublication(d, events[n], env);
        hide WasPublished;
        PublishedEarlier(start, events, env, f, d.folder[f]);
      } else {
        NewFileIsPublished(start, events[..n], events[n], env, f);
        assert Publishes(start, events[..n], events[n], env, f, After(start, events, env).folder[f]);
      }
    }
  }

  /** A transfer in progress is never replaced by another. */
  lemma OneTransferAtATime(d: Desk, e: Event, env: Env)
    requires DeskSound(d, env) && d.receiver.Some? && Handle(d, e, env).desk.receiver.Some?
    ensures TempOf(Handle(d, e, env).desk) == TempOf(d)
  {
    hide SanitizeFilename, IsBlockedExtension, MatchesDigest, UniqueDestination;
  }

  // ---------------------------------------------------------------- an undisturbed upload

  function Arrivals(chunks: seq<Bytes>): seq<Event> {
    if chunks == [] then [] else Arrivals(chunks[..|chunks| - 1]) + [ChunkArrives(chunks[|chunks| - 1])]
  }

  /** The desk after `bytes` more have arrived for the transfer in progress. */
  function Taken(d: Desk, bytes: Bytes): Desk
    requires d.receiver.Some? && d.receiver.value.temp.Some?
  {
    var r := d.receiver.value;
    Desk(d.folder[r.temp.value := r.digested + bytes],
         Some(r.(received := r.received + |bytes|, digested := r.digested + bytes)), d.transfer)
  }

  lemma OneChunkIsTaken(d: Desk, chunk: Bytes, env: Env)
    requires DeskSound(d, env) && d.receiver.Some?
    requires |chunk| <= MAX_FILE_CHUNK_BYTES && d.receiver.value.received + |chunk| <= d.receiver.value.declaredSize
    ensures Handle(d, ChunkArrives(chunk), env).desk == Taken(d, chunk)
  {
    hide CleanName, MatchesDigest;
  }

  lemma TakenTwice(d: Desk, a: Bytes, b: Bytes)
    requires d.receiver.Some? && d.receiver.value.temp.Some?
    ensures Taken(Taken(d, a), b) == Taken(d, a + b)
  {
    assert d.receiver.value.digested + a + b == d.receiver.value.digested + (a + b);
  }

  lemma TakenNothing(d: Desk, env: Env)
    requires DeskSound(d, env) && d.receiver.Some?
    ensures Taken(d, []) == d
  {
    hide CleanName, MatchesDigest;
    var r := d.receiver.value;
    assert r.digested + [] == r.digested;
    assert d.folder[r.temp.value := r.digested] == d.folder;
  }

  /** Chunks that fit the offer are all taken. */
  lemma {:induction false} ChunksAreTaken(start: Desk, before: seq<Event>, chunks: seq<Bytes>, env: Env)
    requires DeskSound(start, env) && After(start, before, env).receiver.Some?
    requires forall i :: 0 <= i < |chunks| ==> |chunks[i]| <= MAX_FILE_CHUNK_BYTES
    requires var r := After(start, before, env).receiver.value;
             r.temp.Some? && r.received + |Concat(chunks)| <= r.declaredSize
    ensures After(start, before + Arrivals(chunks), env) == Taken(After(start, before, env), Concat(chunks))
  {
    hide Handle, DeskSound;
    var d0 := After(start, before, env);
    if chunks == [] {
      assert before + Arrivals(chunks) == before;
      TakenNothing(d0, env);
    } else {
      var front, last := chunks[..|chunks| - 1], chunks[|chunks| - 1];
      ChunksAreTaken(start, before, front, env);
      var events := before + Arrivals(front);
      assert before + Arrivals(chunks) == events + [ChunkArrives(last)];
      assert (events + [ChunkArrives(last)])[..|events|] == events;
      OneChunkIsTaken(After(start, events, env), last, env);
      TakenTwice(d0, Concat(front), last);
    }
  }

  lemma {:induction false} FreeNameIgnoresTemp(folder: Folder, temp: string, content: Bytes, name: string, index: nat)
    requires index <= MAX_COLLISIONS && Hidden(temp) && name != [] && name[0] != '.' && name[|name| - 1] != '.'
    ensures FirstFree(folder[temp := content], name, index) == FirstFree(folder, name, index)
    decreases MAX_COLLISIONS - index
  {
    if index == MAX_COLLISIONS {
    } else {
      AlternativeKeepsSuffix(name, index);
      FreeNameIgnoresTemp(folder, temp, content, name, index + 1);
    }
  }

  predicate IsAcceptable(o: Offer, data: Bytes, env: Env) {
    && env.enabled && |data| <= env.maxBytes
    && o.name.Some? && CleanName(o.name.value, env)
    && o.size == Some(|data|) && o.sha == Some(env.hash(data)) && MatchesDigest(env.hash(data))
  }

  lemma DestinationIgnoresTemp(folder: Folder, temp: string, content: Bytes, name: string)
    requires Hidden(temp) && name != [] && name[0] != '.' && name[|name| - 1] != '.'
    ensures UniqueDestination(folder[temp := content], name) == UniqueDestination(folder, name)
  {
    FreeNameIgnoresTemp(folder, temp, content, name, 1);
  }

  function OpenedFor(o: Offer, data: Bytes, env: Env): Receiver
    requires IsAcceptable(o, data, env)
  {
    NewReceiver(env.maxBytes).(temp := Some(TempName(o.name.value, env.hash(data))), writing := true,
                               name := o.name.value, declaredSize := |data|, declaredSha := env.hash(data))
  }

  lemma AcceptableOfferOpens(d: Desk, o: Offer, id: TransferId, data: Bytes, env: Env)
    requires d.receiver.None? && IsAcceptable(o, data, env)
    ensures var r := OpenedFor(o, data, env);
            Handle(d, Offered(id, o), env).desk == Desk(d.folder[r.temp.value := []], Some(r), id)
  {
    hide SanitizeFilename, IsBlockedExtension, MatchesDigest;
    assert o.name == Some(o.name.value);
  }

  lemma MatchingTransferPublishes(d: Desk, id: TransferId, env: Env, saved: string)
    requires DeskSound(d, env) && d.receiver.Some? && d.transfer == id
    requires var r := d.receiver.value; r.received == r.declaredSize && env.hash(r.digested) == r.declaredSha
    requires UniqueDestination(d.folder, d.receiver.value.name) == Some(saved)
    ensures var h := Handle(d, CompleteArrives(id), env);
            && h.replies == [Done(id, saved)] && h.desk.receiver.None?
            && h.desk.folder == (d.folder - {d.receiver.value.temp.value})[saved := d.receiver.value.digested]
  {
    hide CleanName, MatchesDigest, UniqueDestination;
  }

  /** Before the completion the agent has exactly the data, in the temporary file. */
  lemma DataIsReceived(start: Desk, o: Offer, id: TransferId, data: Bytes, env: Env)
    requires DeskSound(start, env) && start.receiver.None? && IsAcceptable(o, data, env)
    ensures var r := OpenedFor(o, data, env);
            After(start, [Offered(id, o)] + Arrivals(Chunks(data)), env)
            == Desk(start.folder[r.temp.value := data], Some(r.(received := |data|, digested := data)), id)
  {
    hide CleanName, MatchesDigest, Handle, Chunks, Arrivals, DeskSound, IsAcceptable;
    var offers, r := [Offered(id, o)], OpenedFor(o, data, env);
    assert offers[..0] == [];
    AcceptableOfferOpens(start, o, id, data, env);
    ChunksAreTheData(data);
    ChunksAreTaken(start, offers, Chunks(data), env);
    assert [] + data == data;
    assert start.folder[r.temp.value := []][r.temp.value := data] == start.folder[r.temp.value := data];
  }

  /** The end-to-end upload: a truthful acceptable offer, the sender's chunks in order and the
      completion publish exactly the data under the first free name, and nothing else changes. */
  lemma UploadArrivesIntact(start: Desk, o: Offer, id: TransferId, data: Bytes, env: Env)
    requires start.receiver.None? && IsAcceptable(o, data, env)
    requires UniqueDestination(start.folder, o.name.value).Some?
    ensures DeskSound(start, env)
    ensures var sent := [Offered(id, o)] + Arrivals(Chunks(data));
            var last := Handle(After(start, sent, env), CompleteArrives(id), env);
            var saved := UniqueDestination(start.folder, o.name.value).value;
            && last.replies == [Done(id, saved)] && last.desk.receiver.None?
            && last.desk.folder == (start.folder - {TempName(o.name.value, env.hash(data))})[saved := data]
  {
    var name, temp := o.name.value, TempName(o.name.value, env.hash(data));
    SanitizingKeepsName(o.name, env.lower);
    assert o.name == Some(name) && Hidden(temp);
    hide CleanName, MatchesDigest, UniqueDestination, Handle, Hidden, After;
    DataIsReceived(start, o, id, data, env);
    DestinationIgnoresTemp(start.folder, temp, data, name);
    var saved := UniqueDestination(start.folder, name).value;
    MatchingTransferPublishes(After(start, [Offered(id, o)] + Arrivals(Chunks(data)), env), id, env, saved);
    assert (start.folder[temp := data] - {temp})[saved := data] == (start.folder - {temp})[saved := data];
  }
}
