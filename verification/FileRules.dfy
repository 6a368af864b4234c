/** When a file request is carried out, what it leaves and how it is refused otherwise; and what the UTF-8 test accepts. */
module FileRules {
  import opened FileMutation

  // -------------------------------------------------------------------------
  // Requests
  // -------------------------------------------------------------------------

  /** The file is what the caller says it is: absent, or a readable file with this content. */
  predicate IsNow(files: map<Path, Bytes>, path: Path, expected: Option<Bytes>) {
    match expected
    case None => path !in files
    case Some(content) => path in files && files[path] == content && |content| <= MAX_MUTATION_BYTES
  }

  predicate FitsLimit(content: Option<Bytes>) {
    content.Some? ==> |content.value| <= MAX_MUTATION_BYTES
  }

  /** What the request makes of the file, if its own conditions hold: the content, or none if the file is removed. */
  function Wanted(st: State, r: Request): Option<Option<Bytes>> {
    match r
    case Writing(_, path, expected, content) =>
      if IsNow(st.files, path, expected) && FitsLimit(Some(content)) then Some(Some(content)) else None
    case Patching(_, path, hash, patch) =>
      if IsNow(st.files, path, Some(hash)) && Utf8(hash) && patch(hash).Some? && FitsLimit(patch(hash))
      then Some(patch(hash)) else None
    case RollingBack(_, path, backup, hash) =>
      if IsNow(st.files, path, Some(hash)) && backup in st.backups && st.backups[backup].path == path
         && st.backups[backup].after == Some(hash) && FitsLimit(st.backups[backup].before)
      then Some(st.backups[backup].before) else None
  }

  function OperationOf(r: Request): Operation {
    match r
    case Writing(_, _, _, _) => WriteFile
    case Patching(_, _, _, _) => ApplyPatch
    case RollingBack(_, _, _, _) => RollbackFileChange
  }

  /** `next` has this content, or no file, at the path, and every other file as before. */
  ghost predicate Becomes(files: map<Path, Bytes>, path: Path, content: Option<Bytes>, next: map<Path, Bytes>) {
    && (path in next <==> content.Some?)
    && (content.Some? ==> next[path] == content.value)
    && forall x :: x != path ==> (x in next <==> x in files) && (x in files ==> next[x] == files[x])
  }

  /**
   * A request is carried out exactly if its conditions hold and its id is fresh. Then the file has the content wanted, the
   * backup records the operation with the content before and after, and the answer reports the two; only a write over a
   * content that is not UTF-8 is answered as failed all the same. Otherwise nothing changes.
   */
  lemma CarriedOutIff(st: State, r: Request)
    ensures var (next, outcome) := Step(st, r);
            var wanted, before := Wanted(st, r), Content(st.files, r.path);
            if wanted.Some? && r.id !in st.backups then
              && Becomes(st.files, r.path, wanted.value, next.files)
              && next.backups == st.backups[r.id := Backup(r.path, OperationOf(r), before, wanted.value)]
              && (outcome == Done(before, wanted.value)
                  || (outcome == Failed(PreconditionFailed) && r.Writing? && before.Some? && !Utf8(before.value)))
              && (outcome.Done? <==> !r.Writing? || before.None? || Utf8(before.value))
            else next == st && outcome.Failed?
  {
    hide Utf8;
    var next := Step(st, r).0;
    if next != st {
      BackupIsPreImage(st, r);
    }
  }

  /** How a request that is not carried out is refused. */
  lemma RefusedAs(st: State, r: Request)
    requires Wanted(st, r).None? || r.id in st.backups
    ensures var answer := Step(st, r).1;
            match r
            case Writing(_, _, _, _) =>
              answer == Failed(if Wanted(st, r).None? then PreconditionFailed else RollbackRejected)
            case Patching(_, path, hash, _) =>
              answer == Failed(if !IsNow(st.files, path, Some(hash)) then PreconditionFailed
                               else if Wanted(st, r).None? then PatchRejected else RollbackRejected)
            case RollingBack(_, path, backup, hash) =>
              answer == Failed(
                if backup in st.backups && FitsLimit(st.backups[backup].before) && st.backups[backup].path == path
                   && st.backups[backup].after == Some(hash) && !Readable(st.files, path) then PreconditionFailed
                else RollbackRejected)
  {
    hide Utf8;
  }

  // -------------------------------------------------------------------------
  // UTF-8
  // -------------------------------------------------------------------------

  /** A Unicode scalar value. */
  predicate Scalar(v: nat) {
    v < 0x110000 && !(0xD800 <= v < 0xE000)
  }

  /** The encoding of one scalar value, shortest form (RFC 3629, section 3). */
  function EncodeOne(v: nat): Bytes
    requires Scalar(v)
  {
    if v < 0x80 then [v]
    else if v < 0x800 then [0xC0 + v / 64, 0x80 + v % 64]
    else if v < 0x10000 then [0xE0 + v / 64 / 64, 0x80 + v / 64 % 64, 0x80 + v % 64]
    else [0xF0 + v / 64 / 64 / 64, 0x80 + v / 64 / 64 % 64, 0x80 + v / 64 % 64, 0x80 + v % 64]
  }

  function Encode(text: seq<nat>): Bytes
    requires forall i :: 0 <= i < |text| ==> Scalar(text[i])
  {
    if text == [] then [] else EncodeOne(text[0]) + Encode(text[1..])
  }

  /** The first character of some bytes is an encoding, or there is none. */
  lemma FirstCharacter(s: Bytes) returns (v: nat)
    requires s != [] && CharLength(s) > 0
    ensures Scalar(v) && CharLength(s) <= |s| && s[..CharLength(s)] == EncodeOne(v)
  {
    var n := CharLength(s);
    if n == 1 {
      v := s[0];
    } else if n == 2 {
      v := Two(s);
    } else if n == 3 {
      v := Three(s);
    } else {
      v := Four(s);
    }
  }

  lemma Two(s: Bytes) returns (v: nat)
    requires s != [] && CharLength(s) == 2
    ensures Scalar(v) && 2 <= |s| && s[..2] == EncodeOne(v)
  {
    v := 64 * (s[0] - 0xC0) + (s[1] - 0x80);
    Sextet(s[0] - 0xC0, s[1] - 0x80);
  }

  lemma Three(s: Bytes) returns (v: nat)
    requires s != [] && CharLength(s) == 3
    ensures Scalar(v) && 3 <= |s| && s[..3] == EncodeOne(v)
  {
    var high := 64 * (s[0] - 0xE0) + (s[1] - 0x80);
    v := 64 * high + (s[2] - 0x80);
    Sextet(s[0] - 0xE0, s[1] - 0x80);
    Sextet(high, s[2] - 0x80);
  }

  lemma Four(s: Bytes) returns (v: nat)
    requires s != [] && CharLength(s) == 4
    ensures Scalar(v) && 4 <= |s| && s[..4] == EncodeOne(v)
  {
    var top := 64 * (s[0] - 0xF0) + (s[1] - 0x80);
    var high := 64 * top + (s[2] - 0x80);
    v := 64 * high + (s[3] - 0x80);
    Sextet(s[0] - 0xF0, s[1] - 0x80);
    Sextet(top, s[2] - 0x80);
    Sextet(high, s[3] - 0x80);
  }

  lemma Sextet(high: nat, low: nat)
    requires low < 64
    ensures (64 * high + low) / 64 == high && (64 * high + low) % 64 == low
  {}

  lemma EncodedLength(v: nat, rest: Bytes)
    requires Scalar(v)
    ensures EncodeOne(v) != [] && CharLength(EncodeOne(v) + rest) == |EncodeOne(v)|
  {}

  lemma {:induction false} EncodedIsUtf8(text: seq<nat>)
    requires forall i :: 0 <= i < |text| ==> Scalar(text[i])
    ensures Utf8(Encode(text))
    decreases |text|
  {
    hide EncodeOne, CharLength;
    if text != [] {
      var first, rest := EncodeOne(text[0]), Encode(text[1..]);
      EncodedIsUtf8(text[1..]);
      EncodedLength(text[0], rest);
      assert (first + rest)[|first|..] == rest;
    }
  }

  lemma {:induction false} Utf8IsEncoded(s: Bytes) returns (text: seq<nat>)
    requires Utf8(s)
    ensures forall i :: 0 <= i < |text| ==> Scalar(text[i])
    ensures s == Encode(text)
    decreases |s|
  {
    hide EncodeOne, CharLength, Scalar;
    text := [];
    if s != [] {
      var n := CharLength(s);
      var v := FirstCharacter(s);
      var rest := Utf8IsEncoded(s[n..]);
      text := [v] + rest;
      assert text[1..] == rest && s == s[..n] + s[n..];
    }
  }

  /** The test accepts exactly the encodings of sequences of scalar values. */
  lemma Utf8Iff(s: Bytes)
    ensures Utf8(s) <==>
            exists text: seq<nat> :: (forall i :: 0 <= i < |text| ==> Scalar(text[i])) && s == Encode(text)
  {
    hide Scalar, Utf8;
    if Utf8(s) {
      var text := Utf8IsEncoded(s);
    }
    if text: seq<nat> :| (forall i :: 0 <= i < |text| ==> Scalar(text[i])) && s == Encode(text) {
      EncodedIsUtf8(text);
    }
  }
}
