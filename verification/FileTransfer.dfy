/**
 Sandboxed file receive: name checks, the temporary file, and publication of a verified
 file under a name that never overwrites another.
 */
module FileTransfer {
  import opened Basics

  newtype byte = x: int | 0 <= x < 256

  type Bytes = seq<byte>

  /** One folder: its files by name. */
  type Folder = map<string, Bytes>

  const MAX_FILE_BYTES := 500 * 1024 * 1024
  const MAX_FILENAME_LENGTH := 255
  const MAX_COLLISIONS := 10_000

  // ---------------------------------------------------------------- names

  function LastDot(name: string): int {
    if name == [] then -1
    else if name[|name| - 1] == '.' then |name| - 1
    else LastDot(name[..|name| - 1])
  }

  /** Where a name's extension begins: the last dot, unless it leads or trails the name. */
  function SuffixStart(name: string): (i: nat)
    ensures i <= |name|
  {
    var dot := LastDot(name);
    if 0 < dot < |name| - 1 then dot else |name|
  }

  function Stem(name: string): string { name[..SuffixStart(name)] }

  function Suffix(name: string): string { name[SuffixStart(name)..] }

  predicate IsReservedStem(stem: string) {
    || stem in {"con", "prn", "aux", "nul"}
    || (|stem| == 4 && (stem[..3] == "com" || stem[..3] == "lpt") && '1' <= stem[3] <= '9')
  }

  predicate IsIllegalChar(c: char) {
    c in {'/', '\\', ':', '<', '>', '"', '|', '?', '*'} || (c as int) < 0x20
  }

  /** `lower` stands for the platform's case folding, which no result here depends on. */
  function SanitizeFilename(name: Option<string>, lower: string -> string): Option<string> {
    if name.None? || !(1 <= |name.value| <= MAX_FILENAME_LENGTH) then None
    else if exists i :: 0 <= i < |name.value| && IsIllegalChar(name.value[i]) then None
    else if name.value[0] == '.' then None
    else if name.value[|name.value| - 1] in {' ', '.'} then None
    else if IsReservedStem(lower(Stem(name.value))) then None
    else name
  }

  /** Sanitizing rejects; it never rewrites. */
  lemma SanitizingKeepsName(name: Option<string>, lower: string -> string)
    ensures SanitizeFilename(name, lower).Some? ==> name.Some? && SanitizeFilename(name, lower) == name
    ensures SanitizeFilename(name, lower).Some? ==>
              name.value != [] && name.value[0] != '.' && name.value[|name.value| - 1] != '.'
  {
  }

  const BLOCKED_EXTENSIONS: set<string> := {
    ".exe", ".com", ".scr", ".pif", ".msi", ".msp", ".mst",
    ".bat", ".cmd", ".ps1", ".psm1", ".vbs", ".vbe", ".js", ".jse",
    ".ws", ".wsf", ".wsh", ".hta", ".cpl", ".jar", ".reg", ".lnk",
    ".dll", ".sys", ".scf", ".inf", ".gadget", ".application", ".appref-ms"
  }

  predicate IsBlockedExtension(name: string, lower: string -> string) { lower(Suffix(name)) in BLOCKED_EXTENSIONS }

  function Digit(d: nat): char
    requires d < 10
  {
    '0' + d as char
  }

  function Decimal(n: nat): string {
    if n < 10 then [Digit(n)] else Decimal(n / 10) + [Digit(n % 10)]
  }

  /** The name tried for the `index`-th collision: the extension stays last. */
  function Alternative(name: string, index: nat): string {
    Stem(name) + " (" + Decimal(index) + ")" + Suffix(name)
  }

  function FirstFree(folder: Folder, name: string, index: nat): Option<string>
    requires index <= MAX_COLLISIONS
    decreases MAX_COLLISIONS - index
  {
    if index == MAX_COLLISIONS then None
    else if Alternative(name, index) !in folder then Some(Alternative(name, index))
    else FirstFree(folder, name, index + 1)
  }

  function UniqueDestination(folder: Folder, name: string): Option<string> {
    if name !in folder then Some(name) else FirstFree(folder, name, 1)
  }

  method FindUniqueDestination(folder: Folder, name: string) returns (destination: Option<string>)
    ensures destination == UniqueDestination(folder, name)
    ensures destination.Some? ==> destination.value !in folder
  {
    if name !in folder {
      return Some(name);
    }
    for index := 1 to MAX_COLLISIONS
      invariant UniqueDestination(folder, name) == FirstFree(folder, name, index)
    {
      var alternative := Alternative(name, index);
      if alternative !in folder {
        return Some(alternative);
      }
    }
    return None;
  }

  // ---------------------------------------------------------------- what names guarantee

  lemma {:induction false} LastDotIsLast(name: string)
    ensures var d := LastDot(name);
            && -1 <= d < |name|
            && (d >= 0 ==> name[d] == '.')
            && (forall i :: d < i < |name| ==> name[i] != '.')
  {
    if name == [] || name[|name| - 1] == '.' {
    } else {
      LastDotIsLast(name[..|name| - 1]);
    }
  }

  lemma {:induction false} DecimalHasDigitsOnly(n: nat)
    ensures |Decimal(n)| >= 1 && forall i :: 0 <= i < |Decimal(n)| ==> '0' <= Decimal(n)[i] <= '9'
  {
    if n < 10 {
    } else {
      DecimalHasDigitsOnly(n / 10);
    }
  }

  lemma LastDotAfterPrefix(prefix: string, tail: string, dot: nat)
    requires dot < |tail| && tail[dot] == '.' && forall i :: dot < i < |tail| ==> tail[i] != '.'
    ensures LastDot(prefix + tail) == |prefix| + dot
  {
    var whole := prefix + tail;
    LastDotIsLast(whole);
    assert whole[|prefix| + dot] == '.';
    forall i | |prefix| + dot < i < |whole| ensures whole[i] != '.' {
      assert whole[i] == tail[i - |prefix|];
    }
  }

  lemma LastDotOfDotless(name: string)
    requires forall i :: 0 <= i < |name| ==> name[i] != '.'
    ensures LastDot(name) == -1
  {
    LastDotIsLast(name);
  }

  /** Renaming on collision keeps the extension, and never yields a hidden name. */
  lemma AlternativeKeepsSuffix(name: string, index: nat)
    requires name != [] && name[0] != '.' && name[|name| - 1] != '.'
    ensures Suffix(Alternative(name, index)) == Suffix(name)
    ensures Alternative(name, index) != [] && Alternative(name, index)[0] != '.'
  {
    LastDotIsLast(name);
    DecimalHasDigitsOnly(index);
    var middle := " (" + Decimal(index) + ")";
    var prefix := Stem(name) + middle;
    var alternative := Alternative(name, index);
    assert alternative == prefix + Suffix(name);
    assert forall i :: 0 <= i < |middle| ==> middle[i] != '.';
    if LastDot(name) > 0 {
      LastDotAfterPrefix(prefix, Suffix(name), 0);
    } else {
      assert Suffix(name) == [] && Stem(name) == name;
      assert alternative == name + middle;
      LastDotOfDotless(alternative);
    }
    assert alternative[0] == name[0];
  }

  // ---------------------------------------------------------------- one transfer

  datatype Code =
    | AlreadyActive | InvalidName | BlockedType | SizeRejected | BadDigest
    | NotActive | SizeExceeded | SizeMismatch | DigestMismatch | TooManyCollisions

  /** The pattern `^[0-9a-f]{64}$` as the code matches it: a trailing newline passes too. */
  predicate MatchesDigest(sha: string) {
    && (|sha| == 64 || (|sha| == 65 && sha[64] == '\n'))
    && forall i :: 0 <= i < 64 ==> '0' <= sha[i] <= '9' || 'a' <= sha[i] <= 'f'
  }

  function TempName(safe: string, sha: string): string
    requires |sha| >= 12
  {
    "." + safe + "." + sha[..12] + ".part"
  }

  /** A receiver's fields. `digested` is everything fed to the running digest; `writing` says
      that the temporary file's handle is open. */
  datatype Receiver = Receiver(maxBytes: int, name: string, declaredSize: int, declaredSha: string,
                               received: int, digested: Bytes, temp: Option<string>, writing: bool, finished: bool)

  function NewReceiver(maxBytes: int): Receiver { Receiver(maxBytes, "", 0, "", 0, [], None, false, false) }

  datatype Offer = Offer(name: Option<string>, size: Option<int>, sha: Option<string>)

  function OfferProblem(r: Receiver, o: Offer, lower: string -> string): Option<Code> {
    if r.temp.Some? then Some(AlreadyActive)
    else if SanitizeFilename(o.name, lower).None? then Some(InvalidName)
    else if IsBlockedExtension(o.name.value, lower) then Some(BlockedType)
    else if o.size.None? || !(0 <= o.size.value <= r.maxBytes) then Some(SizeRejected)
    else if o.sha.None? || !MatchesDigest(o.sha.value) then Some(BadDigest)
    else None
  }

  datatype Stage = Stage(folder: Folder, receiver: Receiver)

  datatype Step = Step(stage: Stage, problem: Option<Code>)

  function Begin(s: Stage, o: Offer, lower: string -> string): Step {
    var problem := OfferProblem(s.receiver, o, lower);
    if problem.Some? then Step(s, problem)
    else
      var temp := TempName(o.name.value, o.sha.value);
      Step(Stage(s.folder[temp := []],
                 s.receiver.(temp := Some(temp), writing := true, name := o.name.value,
                             declaredSize := o.size.value, declaredSha := o.sha.value)),
           None)
  }

  function DiscardTemp(s: Stage): Stage {
    if s.receiver.temp.None? then s
    else Stage(s.folder - {s.receiver.temp.value}, s.receiver.(temp := None))
  }

  function Abort(s: Stage): Stage {
    var discarded := DiscardTemp(s.(receiver := s.receiver.(writing := false)));
    discarded.(receiver := discarded.receiver.(finished := true))
  }

  /** An open handle belongs to a temporary file that is in the folder. */
  predicate HandleValid(s: Stage) {
    s.receiver.writing ==> s.receiver.temp.Some? && s.receiver.temp.value in s.folder
  }

  function WriteChunk(s: Stage, data: Bytes): Step
    requires HandleValid(s)
  {
    var r := s.receiver;
    if !r.writing || r.finished then Step(s, Some(NotActive))
    else
      var counted := r.(received := r.received + |data|);
      if counted.received > r.declaredSize then Step(Abort(s.(receiver := counted)), Some(SizeExceeded))
      else Step(Stage(s.folder[r.temp.value := s.folder[r.temp.value] + data],
                      counted.(digested := r.digested + data)), None)
  }

  datatype Finished = Finished(stage: Stage, published: Result<string, Code>)

  function Finish(s: Stage, hash: Bytes -> string): Finished
    requires HandleValid(s)
  {
    if !s.receiver.writing || s.receiver.finished then Finished(s, Err(NotActive))
    else
      var r := s.receiver.(writing := false);
      if r.received != r.declaredSize then Finished(DiscardTemp(s.(receiver := r)), Err(SizeMismatch))
      else if hash(r.digested) != r.declaredSha then Finished(DiscardTemp(s.(receiver := r)), Err(DigestMismatch))
      else
        var destination := UniqueDestination(s.folder, r.name);
        if destination.None? then Finished(s.(receiver := r), Err(TooManyCollisions))
        else
          Finished(Stage((s.folder - {r.temp.value})[destination.value := s.folder[r.temp.value]],
                         r.(temp := None, finished := true)),
                   Ok(destination.value))
  }

  class Directory {
    var files: Folder

    constructor (files: Folder)
      ensures this.files == files
    {
      this.files := files;
    }
  }

  class FileReceiver {
    const directory: Directory
    const maxBytes: int
    var name: string
    var declaredSize: int
    var declaredSha256: string
    var received: int
    var digested: Bytes
    var tempPath: Option<string>
    var handleOpen: bool
    var finished: bool

    function View(): Receiver
      reads this
    {
      Receiver(maxBytes, name, declaredSize, declaredSha256, received, digested, tempPath, handleOpen, finished)
    }

    function Staged(): Stage
      reads this, directory
    {
      Stage(directory.files, View())
    }

    constructor (directory: Directory, maxBytes: int := MAX_FILE_BYTES)
      ensures View() == NewReceiver(maxBytes) && this.directory == directory
    {
      this.directory, this.maxBytes := directory, maxBytes;
      name, declaredSize, declaredSha256, received, digested := "", 0, "", 0, [];
      tempPath, handleOpen, finished := None, false, false;
    }

    method BeginTransfer(o: Offer, lower: string -> string) returns (problem: Option<Code>)
      modifies this, directory
      ensures Step(Staged(), problem) == Begin(old(Staged()), o, lower)
    {
      if tempPath.Some? {
        return Some(AlreadyActive);
      }
      var safe := SanitizeFilename(o.name, lower);
      if safe.None? {
        return Some(InvalidName);
      }
      if IsBlockedExtension(safe.value, lower) {
        return Some(BlockedType);
      }
      if o.size.None? || !(0 <= o.size.value <= maxBytes) {
        return Some(SizeRejected);
      }
      if o.sha.None? || !MatchesDigest(o.sha.value) {
        return Some(BadDigest);
      }
      var temp := TempName(safe.value, o.sha.value);
      directory.files := directory.files[temp := []];
      handleOpen := true;
      tempPath := Some(temp);
      name := safe.value;
      declaredSize := o.size.value;
      declaredSha256 := o.sha.value;
      return None;
    }

    method Write(data: Bytes) returns (problem: Option<Code>)
      requires HandleValid(Staged())
      modifies this, directory
      ensures Step(Staged(), problem) == WriteChunk(old(Staged()), data)
    {
      if !handleOpen || finished {
        return Some(NotActive);
      }
      received := received + |data|;
      if received > declaredSize {
        AbortTransfer();
        return Some(SizeExceeded);
      }
      digested := digested + data;
      directory.files := directory.files[tempPath.value := directory.files[tempPath.value] + data];
      return None;
    }

    method FinishTransfer(hash: Bytes -> string) returns (published: Result<string, Code>)
      requires HandleValid(Staged())
      modifies this, directory
      ensures Finished(Staged(), published) == Finish(old(Staged()), hash)
    {
      if !handleOpen || finished {
        return Err(NotActive);
      }
      handleOpen := false;
      if received != declaredSize {
        Discard();
        return Err(SizeMismatch);
      }
      if hash(digested) != declaredSha256 {
        Discard();
        return Err(DigestMismatch);
      }
      var destination := FindUniqueDestination(directory.files, name);
      if destination.None? {
        return Err(TooManyCollisions);
      }
      directory.files := (directory.files - {tempPath.value})[destination.value := directory.files[tempPath.value]];
      tempPath := None;
      finished := true;
      return Ok(destination.value);
    }

    method AbortTransfer()
      modifies this, directory
      ensures Staged() == Abort(old(Staged()))
    {
      handleOpen := false;
      Discard();
      finished := true;
    }

    method Discard()
      modifies this`tempPath, directory
      ensures Staged() == DiscardTemp(old(Staged()))
    {
      if tempPath.Some? {
        directory.files := directory.files - {tempPath.value};
        tempPath := None;
      }
    }
  }
}
