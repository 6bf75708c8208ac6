/**
 What each event of an upload does, case by case: which names and offers are taken, what
 a chunk, a completion and a cancellation leave, and which reply the viewer gets.
 */
module UploadLaws {
  import opened Basics
  import opened FileTransfer
  import opened Upload
  import opened UploadRuns

  // ---------------------------------------------------------------- names

  const RESERVED: set<string> := {
    "con", "prn", "aux", "nul",
    "com1", "com2", "com3", "com4", "com5", "com6", "com7", "com8", "com9",
    "lpt1", "lpt2", "lpt3", "lpt4", "lpt5", "lpt6", "lpt7", "lpt8", "lpt9"
  }

  lemma FourLetters(s: string, a: char, b: char, c: char)
    requires |s| == 4 && '1' <= s[3] <= '9'
    ensures s[..3] == [a, b, c] ==> s == [a, b, c, s[3]]
    ensures s[3] in "123456789"
  {
    var digits := "123456789";
    assert s[3] == digits[s[3] as int - 49];
  }

  lemma ReservedStems(stem: string)
    ensures IsReservedStem(stem) <==> stem in RESERVED
  {
    if IsReservedStem(stem) && stem !in {"con", "prn", "aux", "nul"} {
      FourLetters(stem, 'c', 'o', 'm');
      FourLetters(stem, 'l', 'p', 't');
      assert stem == "com" + [stem[3]] || stem == "lpt" + [stem[3]];
    }
  }

  /** A character that could leave the folder, or that no Windows file name may hold. */
  predicate Unsafe(c: char) {
    c in "/\\:<>\"|?*" || c < ' '
  }

  /** Exactly the names that are accepted: no separator, no control or wildcard character, no
      hidden or trailing-dot name, and none of the 22 device names before the extension. */
  lemma NameIsAcceptedIff(name: string, lower: string -> string)
    ensures SanitizeFilename(Some(name), lower) ==
              if && 1 <= |name| <= 255
                 && (forall i :: 0 <= i < |name| ==> !Unsafe(name[i]))
                 && name[0] != '.' && name[|name| - 1] != '.' && name[|name| - 1] != ' '
                 && lower(Stem(name)) !in RESERVED
              then Some(name) else None
  {
    ReservedStems(lower(Stem(name)));
    assert forall c: char :: IsIllegalChar(c) <==> Unsafe(c);
  }

  /** Stem and extension of a name written with its last dot. */
  lemma StemAndSuffix(stem: string, extension: string)
    requires '.' !in extension
    ensures stem != [] && extension != [] ==>
              Stem(stem + "." + extension) == stem && Suffix(stem + "." + extension) == "." + extension
    ensures Stem(extension) == extension && Suffix(extension) == []
    ensures Stem(stem + ".") == stem + "." && Suffix(stem + ".") == []
    ensures Stem("." + extension) == "." + extension && Suffix("." + extension) == []
  {
    var tail := "." + extension;
    assert stem + "." + extension == stem + tail && [] + tail == tail;
    LastDotAfterPrefix(stem, tail, 0);
    LastDotAfterPrefix([], tail, 0);
    LastDotOfDotless(extension);
    LastDotAfterPrefix(stem, ".", 0);
  }

  /** Any other name with that extension, in whatever case, is refused as well. */
  lemma BlockedByExtension(stem: string, extension: string, lower: string -> string)
    requires stem != [] && extension != [] && '.' !in extension
    ensures IsBlockedExtension(stem + "." + extension, lower) <==> lower("." + extension) in BLOCKED_EXTENSIONS
  {
    StemAndSuffix(stem, extension);
  }

  // ---------------------------------------------------------------- the first free name

  function ParseDecimal(s: string): int {
    if s == [] then 0 else 10 * ParseDecimal(s[..|s| - 1]) + (s[|s| - 1] as int - '0' as int)
  }

  lemma {:induction false} DecimalReadsBack(n: nat)
    ensures ParseDecimal(Decimal(n)) == n
  {
    var s := Decimal(n);
    if n < 10 {
      assert s[..0] == [];
    } else {
      DecimalReadsBack(n / 10);
      assert s[..|s| - 1] == Decimal(n / 10);
    }
  }

  /** The alternative for a collision carries its number in brackets before the extension. */
  lemma AlternativeIs(stem: string, extension: string, index: nat)
    requires stem != [] && extension != [] && '.' !in extension
    ensures Alternative(stem + "." + extension, index) == stem + " (" + Decimal(index) + ")." + extension
    ensures Alternative(extension, index) == extension + " (" + Decimal(index) + ")"
  {
    StemAndSuffix(stem, extension);
    assert ")" + ("." + extension) == ")." + extension;
  }

  /** No two collision numbers give the same name. */
  lemma AlternativesDiffer(name: string, i: nat, j: nat)
    requires Alternative(name, i) == Alternative(name, j)
    ensures i == j
  {
    var before, after := Stem(name) + " (", ")" + Suffix(name);
    Middle(Alternative(name, i), before, Decimal(i), after);
    Middle(Alternative(name, j), before, Decimal(j), after);
    DecimalReadsBack(i);
    DecimalReadsBack(j);
  }

  lemma Middle(whole: string, before: string, middle: string, after: string)
    requires whole == before + middle + after
    ensures |before| + |after| <= |whole| && middle == whole[|before|..|whole| - |after|]
  {
  }

  /** The destination is the name itself or the first alternative not in the folder; there is
      none only when the name and its 9999 alternatives are all taken. */
  lemma FirstFreeIsFirst(folder: Folder, name: string)
    ensures name !in folder ==> UniqueDestination(folder, name) == Some(name)
    ensures UniqueDestination(folder, name).None? <==>
              name in folder && forall i | 1 <= i < 10_000 :: Alternative(name, i) in folder
    ensures name in folder && UniqueDestination(folder, name).Some? ==>
              exists i | 1 <= i < 10_000 ::
                && UniqueDestination(folder, name).value == Alternative(name, i)
                && Alternative(name, i) !in folder
                && forall j | 1 <= j < i :: Alternative(name, j) in folder
  {
    if name in folder {
      FreeFrom(folder, name, 1);
    }
  }

  lemma {:induction false} FreeFrom(folder: Folder, name: string, from: nat)
    requires from <= MAX_COLLISIONS
    ensures FirstFree(folder, name, from).None? <==>
              forall i | from <= i < MAX_COLLISIONS :: Alternative(name, i) in folder
    ensures FirstFree(folder, name, from).Some? ==>
              exists i | from <= i < MAX_COLLISIONS ::
                && FirstFree(folder, name, from).value == Alternative(name, i)
                && Alternative(name, i) !in folder
                && forall j | from <= j < i :: Alternative(name, j) in folder
    decreases MAX_COLLISIONS - from
  {
    hide Alternative;
    if from < MAX_COLLISIONS && Alternative(name, from) in folder {
      FreeFrom(folder, name, from + 1);
    }
  }

  // ---------------------------------------------------------------- offers

  /** Sixty-four lower-case hexadecimal digits. */
  predicate IsDigest(s: string) {
    |s| == 64 && forall i :: 0 <= i < 64 ==> s[i] in "0123456789abcdef"
  }

  lemma HexDigit(c: char)
    ensures c in "0123456789abcdef" <==> '0' <= c <= '9' || 'a' <= c <= 'f'
  {
    var digits := "0123456789abcdef";
    if '0' <= c <= '9' {
      assert c == digits[c as int - 48];
    } else if 'a' <= c <= 'f' {
      assert c == digits[c as int - 87];
    }
  }

  /** A digest is accepted with or without a newline after it. */
  lemma DigestIsAcceptedIff(sha: string)
    ensures MatchesDigest(sha) <==>
              IsDigest(sha) || (|sha| == 65 && IsDigest(sha[..64]) && sha[64] == '\n')
  {
    forall i | 0 <= i < |sha|
      ensures sha[i] in "0123456789abcdef" <==> '0' <= sha[i] <= '9' || 'a' <= sha[i] <= 'f'
    {
      HexDigit(sha[i]);
    }
    if |sha| == 65 {
      assert forall i :: 0 <= i < 64 ==> sha[..64][i] == sha[i];
    }
  }

  predicate SizeFits(o: Offer, env: Env) { o.size.Some? && 0 <= o.size.value <= env.maxBytes }

  predicate DigestFits(o: Offer) { o.sha.Some? && MatchesDigest(o.sha.value) }

  predicate Fits(o: Offer, env: Env) {
    o.name.Some? && CleanName(o.name.value, env) && SizeFits(o, env) && DigestFits(o)
  }

  /** An offer is accepted exactly when transfers are enabled, none is in progress, and name,
      size and digest are good; it starts with an empty temporary file and nothing received. */
  lemma OfferIsAcceptedIff(d: Desk, id: TransferId, o: Offer, env: Env)
    requires DeskSound(d, env)
    ensures var h := Handle(d, Offered(id, o), env);
            if env.enabled && d.receiver.None? && Fits(o, env) then
              var temp := "." + o.name.value + "." + o.sha.value[..12] + ".part";
              && h.replies == [Accepted(id)]
              && h.desk.folder == d.folder[temp := []] && h.desk.receiver.Some? && h.desk.transfer == id
              && var r := h.desk.receiver.value;
              && (Some(r.name), Some(r.declaredSize), Some(r.declaredSha)) == (o.name, o.size, o.sha)
              && r.digested == [] && r.received == 0 && r.temp == Some(temp) && r.writing && !r.finished
            else
              && h.desk == d
              && h.replies ==
                   [if !env.enabled then FilesDisabled(id)
                    else if d.receiver.Some? then Busy(id)
                    else Failed(id, if SanitizeFilename(o.name, env.lower).None? then InvalidName
                                    else if IsBlockedExtension(o.name.value, env.lower) then BlockedType
                                    else if !SizeFits(o, env) then SizeRejected else BadDigest)]
  {
    SanitizingKeepsName(o.name, env.lower);
    hide SanitizeFilename, IsBlockedExtension, MatchesDigest;
  }

  // ---------------------------------------------------------------- chunks, completion, cancellation

  /** What is left when a transfer is given up: no receiver and no temporary file. */
  function GivenUp(d: Desk): Desk {
    if d.receiver.None? || d.receiver.value.temp.None? then d.(receiver := None)
    else d.(receiver := None, folder := d.folder - {d.receiver.value.temp.value})
  }

  /** A chunk is ignored without a transfer, appended when it fits the offer, and otherwise ends
      the transfer with its reason. */
  lemma ChunkIsTakenIff(d: Desk, chunk: Bytes, env: Env)
    requires DeskSound(d, env)
    ensures var h := Handle(d, ChunkArrives(chunk), env);
            if d.receiver.None? then h == Handled(d, [])
            else if |chunk| > 262_144 then h == Handled(GivenUp(d), [ChunkTooLarge(d.transfer)])
            else if |d.receiver.value.digested| + |chunk| > d.receiver.value.declaredSize then
              h == Handled(GivenUp(d), [Failed(d.transfer, SizeExceeded)])
            else h == Handled(Taken(d, chunk), [])
  {
    hide CleanName, MatchesDigest;
  }

  /** A completion counts only for the transfer in progress; it publishes when size and digest are
      as offered and a name is free, and otherwise ends the transfer with its reason. */
  lemma CompletionPublishesIff(d: Desk, id: TransferId, env: Env)
    requires DeskSound(d, env)
    ensures var h := Handle(d, CompleteArrives(id), env);
            if d.receiver.None? || id != d.transfer then h == Handled(d, [])
            else
              var r := d.receiver.value;
              if |r.digested| != r.declaredSize then h == Handled(GivenUp(d), [Failed(id, SizeMismatch)])
              else if env.hash(r.digested) != r.declaredSha then h == Handled(GivenUp(d), [Failed(id, DigestMismatch)])
              else
                var saved := UniqueDestination(d.folder, r.name);
                if saved.None? then h == Handled(GivenUp(d), [Failed(id, TooManyCollisions)])
                else
                  && h.replies == [Done(id, saved.value)] && h.desk.receiver.None?
                  && h.desk.folder == GivenUp(d).folder[saved.value := r.digested]
  {
    hide CleanName, MatchesDigest, UniqueDestination;
  }

  lemma CancelGivesUp(d: Desk, e: Event, env: Env)
    requires DeskSound(d, env) && (e.Cancelled? || e.ChannelOrPeerClosed?)
    ensures Handle(d, e, env) == Handled(GivenUp(d), [])
  {
    hide CleanName, MatchesDigest;
  }

  /** After any run a cancellation or a closed channel ends the transfer without a reply: no
      temporary file is left, visible files stay, and the next good offer is accepted. */
  lemma CancelOrCloseEndsTransfer(start: Desk, events: seq<Event>, e: Event, env: Env)
    requires DeskSound(start, env) && start.receiver.None? && (e.Cancelled? || e.ChannelOrPeerClosed?)
    ensures var before := After(start, events, env);
            var h := Handle(before, e, env);
            && h.desk.receiver.None? && h.replies == []
            && (forall f :: f in h.desk.folder && Hidden(f) ==> f in start.folder)
            && (forall f :: !Hidden(f) ==>
                  (f in h.desk.folder <==> f in before.folder)
                  && (f in before.folder ==> h.desk.folder[f] == before.folder[f]))
            && forall id, o :: env.enabled && Fits(o, env) ==>
                 Handle(h.desk, Offered(id, o), env).replies == [Accepted(id)]
  {
    var before := After(start, events, env);
    var after := Handle(before, e, env).desk;
    CancelGivesUp(before, e, env);
    TempIsHidden(before, env);
    FolderIsProtected(start, events + [e], env);
    assert (events + [e])[..|events|] == events;
    hide Handle, Fits, After, DeskSound;
    forall id, o | env.enabled && Fits(o, env)
      ensures Handle(after, Offered(id, o), env).replies == [Accepted(id)]
    {
      OfferIsAcceptedIff(after, id, o, env);
    }
  }

  lemma TempIsHidden(d: Desk, env: Env)
    requires DeskSound(d, env)
    ensures TempOf(d).Some? ==> Hidden(TempOf(d).value)
  {
  }

  // ---------------------------------------------------------------- the sender's chunks

  /** Every chunk but the last is 64 KiB, and the last is no larger and not empty. */
  lemma {:induction false} ChunksAreFull(data: Bytes)
    ensures var chunks := Chunks(data);
            && (chunks == [] <==> data == [])
            && (forall i :: 0 <= i < |chunks| - 1 ==> |chunks[i]| == 65_536)
            && (chunks != [] ==> 1 <= |chunks[|chunks| - 1]| <= 65_536)
  {
    if |data| > FILE_CHUNK_BYTES {
      ChunksAreFull(data[FILE_CHUNK_BYTES..]);
    }
  }
}
