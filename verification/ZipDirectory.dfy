/** Whether a zip archive has more members than a limit, from what its end records declare and a walk over as many headers
    as the limit allows (PKWARE APPNOTE.TXT sections 4.3.12, 4.3.14, 4.3.15 and 4.3.16), before anything opens it. */
module ZipDirectory {
  datatype Option<+T> = None | Some(value: T)

  type Byte = b: int | 0 <= b < 256

  const END := 22
  const COMMENT_MAX := 0xFFFF
  const LOCATOR := 20
  const END64 := 56
  const HEADER := 46

  function U16(s: seq<Byte>, at: nat): nat
    requires at + 2 <= |s|
  {
    (s[at] as int) + 0x100 * (s[at + 1] as int)
  }

  function U32(s: seq<Byte>, at: nat): nat
    requires at + 4 <= |s|
  {
    U16(s, at) + 0x1_0000 * U16(s, at + 2)
  }

  function U64(s: seq<Byte>, at: nat): nat
    requires at + 8 <= |s|
  {
    U32(s, at) + 0x1_0000_0000 * U32(s, at + 4)
  }

  /** "PK" and two bytes that say which record begins. */
  predicate Signed(s: seq<Byte>, at: int, a: Byte, b: Byte) {
    0 <= at && at + 4 <= |s| && s[at] == 0x50 && s[at + 1] == 0x4b && s[at + 2] == a && s[at + 3] == b
  }

  predicate EndSigned(s: seq<Byte>, at: int) { Signed(s, at, 5, 6) }
  predicate LocatorSigned(s: seq<Byte>, at: int) { Signed(s, at, 6, 7) }
  predicate End64Signed(s: seq<Byte>, at: int) { Signed(s, at, 6, 6) }
  predicate HeaderSigned(s: seq<Byte>, at: int) { Signed(s, at, 1, 2) }

  /** The members declared, and where the central directory is. */
  datatype Directory = Directory(total: nat, start: nat, size: nat)

  // ----- the end records ---------------------------------------------------------------------

  /** The end of central directory record: at the very end, with no comment, or the last one a comment may follow. */
  ghost predicate IsEnd(s: seq<Byte>, at: nat) {
    && at + END <= |s| && EndSigned(s, at)
    && ((at == |s| - END && s[at + 20] == 0 == s[at + 21]) || (|s| - COMMENT_MAX - END <= at && forall k :: at < k ==> !EndSigned(s, k)))
  }

  method FindEnd(s: seq<Byte>) returns (at: Option<nat>)
    ensures if at.Some? then IsEnd(s, at.value) && forall k :: IsEnd(s, k) ==> k == at.value else forall k :: !IsEnd(s, k)
  {
    if |s| < END { return None; }
    var end := |s| - END;
    if EndSigned(s, end) && s[end + 20] == 0 == s[end + 21] { return Some(end); }
    var first := if |s| > COMMENT_MAX + END then |s| - COMMENT_MAX - END else 0;
    var i := |s|;
    while i > first && !EndSigned(s, i)
      invariant first <= i <= |s| && forall k :: i < k ==> !EndSigned(s, k)
    {
      i := i - 1;
    }
    if !EndSigned(s, i) { return None; }
    return if |s| - i < END then None else Some(i);
  }

  /** The zip64 record the locator at ``locator`` names: where it says, or right before the locator. */
  ghost predicate IsEnd64(s: seq<Byte>, locator: nat, at: nat) {
    && at + END64 <= locator && End64Signed(s, at)
    && locator + LOCATOR <= |s| && LocatorSigned(s, locator) && U32(s, locator + 4) == 0 && U32(s, locator + 16) <= 1
    && U64(s, locator + 8) <= locator - END64
    && at == (if End64Signed(s, U64(s, locator + 8)) then U64(s, locator + 8) else locator - END64)
    && U64(s, at + 40) + U64(s, at + 48) == U64(s, locator + 8)
    && U64(s, at + 4) + 12 == locator - at
  }

  method FindEnd64(s: seq<Byte>, locator: nat) returns (at: Option<nat>)
    requires locator + LOCATOR <= |s| && LocatorSigned(s, locator)
    ensures if at.Some? then IsEnd64(s, locator, at.value) else forall z :: !IsEnd64(s, locator, z)
  {
    hide U16, U32, U64;
    var disk, offset, disks := U32(s, locator + 4), U64(s, locator + 8), U32(s, locator + 16);
    if disk != 0 || disks > 1 || locator < END64 || offset > locator - END64 { return None; }
    var last := locator - END64;
    var z := if End64Signed(s, offset) then offset else last;
    if !End64Signed(s, z) { return None; }
    if U64(s, z + 48) + U64(s, z + 40) != offset || U64(s, z + 4) + 12 != locator - z { return None; }
    return Some(z);
  }

  /** The directory ends where its end record begins: the zip64 one, if there is one, which then declares it. */
  ghost predicate Declares(s: seq<Byte>, d: Directory) {
    exists at: nat :: IsEnd(s, at) && DeclaredAt(s, at, d)
  }

  ghost predicate DeclaredAt(s: seq<Byte>, at: nat, d: Directory)
    requires at + END <= |s|
  {
    if LocatorSigned(s, at - LOCATOR) then
      var z := d.start + d.size;
      IsEnd64(s, at - LOCATOR, z) && d.total == U64(s, z + 32) && d.size == U64(s, z + 40)
    else
      d.start + d.size == at && d.total == U16(s, at + 10) && d.size == U32(s, at + 12)
  }

  method CentralDirectory(s: seq<Byte>) returns (d: Option<Directory>)
    ensures if d.Some? then Declares(s, d.value) else forall x :: !Declares(s, x)
    ensures d.Some? ==> d.value.start + d.value.size + END <= |s|
  {
    hide U16, U32, U64;
    var end := FindEnd(s);
    if end.None? { return None; }
    var at := end.value;
    var total, size, location := U16(s, at + 10), U32(s, at + 12), at;
    if at >= LOCATOR && LocatorSigned(s, at - LOCATOR) {
      var z := FindEnd64(s, at - LOCATOR);
      if z.None? { return None; }
      location := z.value;
      total, size := U64(s, location + 32), U64(s, location + 40);
    }
    if size > location { return None; }
    d := Some(Directory(total, location - size, size));
    assert DeclaredAt(s, at, d.value);
  }

  // ----- the headers -------------------------------------------------------------------------

  predicate Header(s: seq<Byte>, at: nat) {
    at + HEADER <= |s| && HeaderSigned(s, at)
  }

  function Length(s: seq<Byte>, at: nat): nat
    requires Header(s, at)
  {
    HEADER + U16(s, at + 28) + U16(s, at + 30) + U16(s, at + 32)
  }

  /** How many well-formed headers follow one another in the directory, from ``done`` bytes into it on. */
  function Headers(s: seq<Byte>, d: Directory, done: nat): nat
    decreases d.size - done
  {
    if done < d.size && Header(s, d.start + done) then 1 + Headers(s, d, done + Length(s, d.start + done)) else 0
  }

  /** Exactly whether the archive declares or holds more than ``limit`` members, after reading ``limit`` + 1 headers at
      most. */
  method HasMoreMembers(s: seq<Byte>, limit: nat) returns (more: bool, read: nat)
    ensures more <==> exists d :: Declares(s, d) && (d.total > limit || Headers(s, d, 0) > limit)
    ensures read <= limit + 1
  {
    var located := CentralDirectory(s);
    if located.None? { return false, 0; }
    var d := located.value;
    OnlyOneDirectory(s, d);
    if d.total > limit { return true, 0; }
    more, read := WalkHeaders(s, d, limit);
  }

  method WalkHeaders(s: seq<Byte>, d: Directory, limit: nat) returns (more: bool, read: nat)
    ensures more <==> Headers(s, d, 0) > limit
    ensures read <= limit + 1
  {
    read := 0;
    var done := 0;
    while done < d.size
      invariant Headers(s, d, 0) == read + Headers(s, d, done) && read <= limit
    {
      if !Header(s, d.start + done) { return false, read; }
      read := read + 1;
      if read > limit { return true, read; }
      done := done + Length(s, d.start + done);
    }
    more := false;
  }

  lemma OnlyOneDirectory(s: seq<Byte>, d: Directory)
    requires Declares(s, d)
    ensures forall x :: Declares(s, x) ==> x == d
  {
    hide U16, U32, U64;
    var at: nat :| IsEnd(s, at) && DeclaredAt(s, at, d);
    forall x | Declares(s, x) ensures x == d {
      var other: nat :| IsEnd(s, other) && DeclaredAt(s, other, x);
      assert other == at;
    }
  }

  // ----- archives ----------------------------------------------------------------------------

  /** One header with its name, extra field and comment. */
  ghost predicate WellFormed(h: seq<Byte>) {
    Header(h, 0) && |h| == Length(h, 0)
  }

  function Flat(headers: seq<seq<Byte>>): seq<Byte> {
    if headers == [] then [] else headers[0] + Flat(headers[1..])
  }

  lemma HeaderInside(before: seq<Byte>, h: seq<Byte>, after: seq<Byte>)
    requires WellFormed(h)
    ensures Header(before + h + after, |before|) && Length(before + h + after, |before|) == |h|
  {
    var s := before + h + after;
    assert forall k :: 0 <= k < |h| ==> s[|before| + k] == h[k];
  }

  /** On a directory that is a run of well-formed headers the walk counts them: the answer is the number of members. */
  lemma {:induction false} HeadersOfAnArchive(before: seq<Byte>, headers: seq<seq<Byte>>, after: seq<Byte>, d: Directory, done: nat)
    requires (forall i :: 0 <= i < |headers| ==> WellFormed(headers[i]))
    requires |before| == d.start + done && done + |Flat(headers)| == d.size
    ensures Headers(before + Flat(headers) + after, d, done) == |headers|
    decreases |headers|
  {
    var s := before + Flat(headers) + after;
    if headers != [] {
      var h, rest := headers[0], Flat(headers[1..]);
      HeaderInside(before, h, rest + after);
      assert s == before + h + (rest + after);
      HeadersOfAnArchive(before + h, headers[1..], after, d, done + |h|);
      assert s == (before + h) + rest + after;
    }
  }
}
