/**
 The reader policy: tools/signing-policy.c prints the requirement of a signed build, and the broker accepts a
 policy file only if it holds exactly such a requirement.
 */
module Policy {
  import opened Types

  type Byte = x: int | 0 <= x < 256

  const HASH_LENGTH: nat := 20
  const PREFIX: string := ['c', 'd', 'h', 'a', 's', 'h', ' ', 'H', '"']
  const QUOTE := '"'
  const NUL: char := '\0'
  const POLICY_LENGTH: nat := 50
  const BUFFER_LENGTH: nat := 256

  // ---- Hexadecimal ----

  predicate IsHexDigit(c: char) {
    '0' <= c <= '9' || 'a' <= c <= 'f'
  }

  function HexDigit(n: nat): (c: char)
    requires n < 16
    ensures IsHexDigit(c)
  {
    if n < 10 then '0' + n as char else 'a' + (n - 10) as char
  }

  function HexValue(c: char): (n: nat)
    requires IsHexDigit(c)
    ensures n < 16 && HexDigit(n) == c
  {
    if c <= '9' then (c - '0') as nat else (c - 'a') as nat + 10
  }

  /** The printf format "%02x". */
  function HexPair(byte: Byte): string {
    [HexDigit(byte / 16), HexDigit(byte % 16)]
  }

  function Hex(hash: seq<Byte>): (s: string)
    ensures |s| == 2 * |hash|
  {
    if hash == [] then [] else Hex(hash[..|hash| - 1]) + HexPair(hash[|hash| - 1])
  }

  predicate AllHex(s: string) {
    forall i | 0 <= i < |s| :: IsHexDigit(s[i])
  }

  function Unhex(s: string): (hash: seq<Byte>)
    requires |s| % 2 == 0 && AllHex(s)
    ensures |hash| == |s| / 2
  {
    if s == [] then []
    else
      var n := |s| - 2;
      Unhex(s[..n]) + [HexValue(s[n]) * 16 + HexValue(s[n + 1])]
  }

  lemma {:induction false} HexAppend(hash: seq<Byte>, byte: Byte)
    ensures Hex(hash + [byte]) == Hex(hash) + HexPair(byte)
  {
    assert (hash + [byte])[..|hash|] == hash;
  }

  lemma {:induction false} PairOfValues(c: char, d: char)
    requires IsHexDigit(c) && IsHexDigit(d)
    ensures HexPair(HexValue(c) * 16 + HexValue(d)) == [c, d]
  {
    var byte := HexValue(c) * 16 + HexValue(d);
    assert byte / 16 == HexValue(c) && byte % 16 == HexValue(d);
  }

  lemma {:induction false} UnhexAppend(head: string, c: char, d: char)
    requires |head| % 2 == 0 && AllHex(head) && IsHexDigit(c) && IsHexDigit(d)
    ensures AllHex(head + [c, d])
    ensures Unhex(head + [c, d]) == Unhex(head) + [HexValue(c) * 16 + HexValue(d)]
  {
    var s := head + [c, d];
    assert s[..|s| - 2] == head;
  }

  /** Every even string of lower-case digits is printed for exactly one byte string. */
  lemma {:induction false} HexOfUnhex(s: string)
    requires |s| % 2 == 0 && AllHex(s)
    ensures Hex(Unhex(s)) == s
    decreases |s|
  {
    if s != [] {
      var n := |s| - 2;
      assert s == s[..n] + [s[n], s[n + 1]];
      HexOfUnhex(s[..n]);
      HexOfUnhexPair(s[..n], s[n], s[n + 1]);
    }
  }

  lemma {:induction false} HexOfUnhexPair(head: string, c: char, d: char)
    requires |head| % 2 == 0 && AllHex(head) && IsHexDigit(c) && IsHexDigit(d)
    requires Hex(Unhex(head)) == head
    ensures AllHex(head + [c, d]) && Hex(Unhex(head + [c, d])) == head + [c, d]
  {
    UnhexAppend(head, c, d);
    HexAppend(Unhex(head), HexValue(c) * 16 + HexValue(d));
    PairOfValues(c, d);
  }

  lemma {:induction false} HexDigitValue(n: nat)
    requires n < 16
    ensures HexValue(HexDigit(n)) == n
  {
  }

  lemma {:induction false} UnhexOfHex(hash: seq<Byte>)
    ensures AllHex(Hex(hash)) && Unhex(Hex(hash)) == hash
    decreases |hash|
  {
    if hash != [] {
      var before, last := hash[..|hash| - 1], hash[|hash| - 1];
      UnhexOfHex(before);
      HexDigitValue(last / 16);
      HexDigitValue(last % 16);
      assert Hex(hash)[..|Hex(hash)| - 2] == Hex(before);
    }
  }

  const DIGITS: string := "0123456789abcdef"

  /** Position by position, the digits printed for a hash are its half bytes, the higher one first. */
  lemma {:induction false} HexAt(hash: seq<Byte>, i: nat)
    requires i < |hash|
    ensures Hex(hash)[2 * i] == DIGITS[hash[i] / 16] && Hex(hash)[2 * i + 1] == DIGITS[hash[i] % 16]
    decreases |hash|
  {
    if i < |hash| - 1 {
      HexAt(hash[..|hash| - 1], i);
    } else {
      DigitsInOrder(hash[i] / 16);
      DigitsInOrder(hash[i] % 16);
    }
  }

  lemma {:induction false} DigitsInOrder(n: nat)
    requires n < 16
    ensures HexDigit(n) == DIGITS[n]
  {
  }

  // ---- Printing ----

  /** The requirement that pins a build by its code directory hash. */
  function Requirement(hash: seq<Byte>): string {
    PREFIX + Hex(hash) + [QUOTE]
  }

  /** snprintf of one byte, with its terminating zero. */
  method PrintPair(buffer: array<char>, at: nat, byte: Byte)
    requires at + 2 < buffer.Length
    modifies buffer
    ensures buffer[..at + 2] == old(buffer[..at]) + HexPair(byte)
  {
    buffer[at] := HexDigit(byte / 16);
    buffer[at + 1] := HexDigit(byte % 16);
    buffer[at + 2] := NUL;
  }

  lemma {:induction false} PrintedNext(hash: seq<Byte>, i: nat)
    requires i < |hash|
    ensures PREFIX + Hex(hash[..i]) + HexPair(hash[i]) == PREFIX + Hex(hash[..i + 1])
  {
    HexAppend(hash[..i], hash[i]);
    assert hash[..i + 1] == hash[..i] + [hash[i]];
  }

  /** The buffer starts out as the prefix and zeros; each pair is written at its offset. */
  method PrintRequirement(hash: seq<Byte>) returns (requirement: array<char>)
    requires |hash| == HASH_LENGTH
    ensures fresh(requirement) && requirement.Length == POLICY_LENGTH + 1
    ensures requirement[..POLICY_LENGTH] == Requirement(hash) && requirement[POLICY_LENGTH] == NUL
  {
    requirement := new char[POLICY_LENGTH + 1](i => if 0 <= i < |PREFIX| then PREFIX[i] else NUL);
    var i := 0;
    while i < |hash|
      invariant i <= |hash|
      invariant requirement[..9 + 2 * i] == PREFIX + Hex(hash[..i])
    {
      PrintPair(requirement, 9 + i * 2, hash[i]);
      PrintedNext(hash, i);
      i := i + 1;
    }
    assert hash[..i] == hash;
    requirement[49] := QUOTE;
    requirement[50] := NUL;
    assert requirement[..POLICY_LENGTH] == requirement[..49] + [QUOTE];
  }

  // ---- Checking ----

  /** What opening, examining and reading the file give; `mode` has its permission bits. */
  datatype File = File(
    opens: bool,
    examined: bool,
    regular: bool,
    owner: nat,
    mode: bv16,
    size: int,
    content: Option<string>)  // None when reading fails

  /** What is demanded of the file itself. */
  predicate Trusted(file: File, owner: nat) {
    && file.opens && file.examined && file.regular && file.owner == owner
    && file.mode & 0x12 == 0  // octal 22: nobody else may write
    && 0 < file.size < BUFFER_LENGTH
    && file.content.Some? && |file.content.value| == file.size
  }

  /** Bit `n` of the permissions, counted from the lowest. */
  predicate Bit(mode: bv16, n: nat)
    requires n < 16
  {
    (mode >> n) & 1 == 1
  }

  /**
   A file is trusted exactly when it is a regular file of the owner's, neither its group (bit 4) nor anybody else
   (bit 1) may write it, and all of it, from 1 to 255 characters, could be read.
   */
  lemma {:induction false} TrustMeans(file: File, owner: nat)
    ensures Trusted(file, owner) <==>
              && file.opens && file.examined && file.regular && file.owner == owner
              && !Bit(file.mode, 4) && !Bit(file.mode, 1)
              && file.content.Some? && file.size == |file.content.value| && 1 <= |file.content.value| <= 255
  {
    MaskIsTwoBits(file.mode);
  }

  lemma {:induction false} MaskIsTwoBits(mode: bv16)
    ensures mode & 0x12 == 0 <==> !Bit(mode, 4) && !Bit(mode, 1)
  {
  }

  /** The content check of ReadPolicy. */
  predicate WellFormed(content: string) {
    && |content| == POLICY_LENGTH
    && content[..9] == PREFIX
    && content[49] == QUOTE
    && AllHex(content[9..49])
  }

  method ReadPolicy(file: File, owner: nat) returns (policy: Option<string>)
    requires file.content.Some? ==> |file.content.value| < BUFFER_LENGTH
    ensures policy == if Trusted(file, owner) && WellFormed(file.content.value) then file.content else None
  {
    if !file.opens {
      return None;
    }
    var valid := file.examined && file.regular && file.owner == owner && file.mode & 0x12 == 0
                 && file.size > 0 && file.size < BUFFER_LENGTH;
    var count := if valid && file.content.Some? then |file.content.value| else -1;
    if count != file.size || count < 0 {
      return None;
    }
    var buffer := file.content.value;
    if count != POLICY_LENGTH || buffer[..9] != PREFIX || buffer[49] != QUOTE {
      return None;
    }
    var i := 9;
    while i < 49
      invariant 9 <= i <= 49
      invariant forall k | 9 <= k < i :: IsHexDigit(buffer[k])
    {
      if !IsHexDigit(buffer[i]) {
        assert buffer[9..49][i - 9] == buffer[i];
        return None;
      }
      i := i + 1;
    }
    return Some(buffer);
  }

  /**
   Main result: the check accepts exactly what the tool prints for some 20-byte hash, and from an accepted
   policy the hash can be read back.
   */
  lemma {:induction false} AcceptsExactlyThePrinted(content: string)
    ensures WellFormed(content) <==> exists hash: seq<Byte> :: |hash| == HASH_LENGTH && Requirement(hash) == content
    ensures WellFormed(content) ==> Requirement(Unhex(content[9..49])) == content
  {
    if WellFormed(content) {
      HexOfUnhex(content[9..49]);
      assert content == content[..9] + content[9..49] + [content[49]];
      assert |Unhex(content[9..49])| == HASH_LENGTH;
    }
    forall hash: seq<Byte> | |hash| == HASH_LENGTH && Requirement(hash) == content ensures WellFormed(content) {
      UnhexOfHex(hash);
      RequirementParts(hash);
    }
  }

  /** The requirement as the code-signing language has it. */
  lemma {:induction false} RequirementParts(hash: seq<Byte>)
    requires |hash| == HASH_LENGTH
    ensures var r := Requirement(hash);
            && |r| == POLICY_LENGTH == 50 && r[..9] == PREFIX && r[9..49] == Hex(hash) && r[49] == QUOTE
            && r == "cdhash H\"" + Hex(hash) + "\""
  {
  }

  /** Main result: distinct builds have distinct policies. */
  lemma {:induction false} PolicyIdentifiesBuild(a: seq<Byte>, b: seq<Byte>)
    requires |a| == |b| == HASH_LENGTH && Requirement(a) == Requirement(b)
    ensures a == b
  {
    RequirementParts(a);
    RequirementParts(b);
    UnhexOfHex(a);
    UnhexOfHex(b);
  }
}
