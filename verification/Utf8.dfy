/**
 * UTF-8 as the terminal hub sees it. Text is the byte string a Rust `String` holds,
 * so decoding valid input is the identity and only ill-formed bytes are rewritten.
 * The grammar is section 4 of RFC 3629; the replacement rule is "U+FFFD substitution
 * of maximal subparts", section 3.9 of the Unicode Standard.
 */
module Utf8 {

  import opened Wrappers

  type Byte = b: int | 0 <= b < 256

  type Bytes = seq<Byte>

  /** U+FFFD. */
  const REPLACEMENT: Bytes := [0xEF, 0xBF, 0xBD]

  // ---------------------------------------------------------------- grammar

  predicate IsTail(b: Byte) {
    0x80 <= b <= 0xBF
  }

  /** The first two bytes of UTF8-3. */
  predicate Opens3(a: Byte, b: Byte) {
    || (a == 0xE0 && 0xA0 <= b <= 0xBF)
    || (0xE1 <= a <= 0xEC && IsTail(b))
    || (a == 0xED && 0x80 <= b <= 0x9F)
    || (0xEE <= a <= 0xEF && IsTail(b))
  }

  /** The first two bytes of UTF8-4. */
  predicate Opens4(a: Byte, b: Byte) {
    || (a == 0xF0 && 0x90 <= b <= 0xBF)
    || (0xF1 <= a <= 0xF3 && IsTail(b))
    || (a == 0xF4 && 0x80 <= b <= 0x8F)
  }

  /** UTF8-char: one encoded scalar value. */
  predicate IsChar(s: Bytes) {
    || (|s| == 1 && s[0] <= 0x7F)
    || (|s| == 2 && 0xC2 <= s[0] <= 0xDF && IsTail(s[1]))
    || (|s| == 3 && Opens3(s[0], s[1]) && IsTail(s[2]))
    || (|s| == 4 && Opens4(s[0], s[1]) && IsTail(s[2]) && IsTail(s[3]))
  }

  /** A nonempty sequence that one or more further bytes can still complete. */
  predicate IsPartial(s: Bytes) {
    || (|s| == 1 && 0xC2 <= s[0] <= 0xF4)
    || (|s| == 2 && (Opens3(s[0], s[1]) || Opens4(s[0], s[1])))
    || (|s| == 3 && Opens4(s[0], s[1]) && IsTail(s[2]))
  }

  /** The bytes that complete a partial sequence. */
  function Completion(s: Bytes): (t: Bytes)
    requires IsPartial(s)
    ensures t != [] && IsChar(s + t)
  {
    if |s| == 3 then [0x80]
    else if |s| == 2 then (if Opens3(s[0], s[1]) then [0x80] else [0x80, 0x80])
    else if s[0] <= 0xDF then [0x80]
    else if s[0] == 0xE0 then [0xA0, 0x80]
    else if s[0] <= 0xEF then [0x80, 0x80]
    else if s[0] == 0xF0 then [0x90, 0x80, 0x80]
    else [0x80, 0x80, 0x80]
  }

  /** `IsPartial` is exactly "nonempty proper prefix of a well-formed character". */
  lemma PartialIsProperPrefix(s: Bytes)
    ensures IsPartial(s) <==> s != [] && exists t: Bytes :: t != [] && IsChar(s + t)
  {
    if IsPartial(s) {
      var t := Completion(s);
    }
    forall t: Bytes | s != [] && t != [] && IsChar(s + t)
      ensures IsPartial(s)
    {
      var c := s + t;
      assert c[..|s|] == s;
      assert forall i :: 0 <= i < |s| ==> c[i] == s[i];
    }
  }

  // ---------------------------------------------------------- scalar values

  /** A Unicode scalar value: any code point that is no surrogate. */
  predicate Scalar(v: nat) {
    v <= 0x10FFFF && !(0xD800 <= v <= 0xDFFF)
  }

  /** The continuation byte that carries the low six bits of `v`. */
  function Tail(v: nat): (b: Byte)
    ensures IsTail(b)
  {
    0x80 + v % 64
  }

  /** The bits of `v` spread over one to four bytes, section 3 of RFC 3629. */
  function Encode(v: nat): (s: Bytes)
    requires Scalar(v)
    ensures 1 <= |s| <= 4
  {
    if v < 0x80 then [v]
    else if v < 0x800 then [0xC0 + v / 64, Tail(v)]
    else if v < 0x10000 then [0xE0 + v / 4096, Tail(v / 64), Tail(v)]
    else [0xF0 + v / 262144, Tail(v / 4096), Tail(v / 64), Tail(v)]
  }

  /** What a byte adds to the mark that says its place. */
  function Bits(b: Byte, mark: int): int {
    b - mark
  }

  /** The value whose bits `s` carries. */
  function Value(s: Bytes): (v: int) {
    if |s| == 1 then s[0]
    else if |s| == 2 then Bits(s[0], 0xC0) * 64 + Bits(s[1], 0x80)
    else if |s| == 3 then (Bits(s[0], 0xE0) * 64 + Bits(s[1], 0x80)) * 64 + Bits(s[2], 0x80)
    else if |s| == 4 then
      ((Bits(s[0], 0xF0) * 64 + Bits(s[1], 0x80)) * 64 + Bits(s[2], 0x80)) * 64 + Bits(s[3], 0x80)
    else 0
  }

  /** Taking a number apart into its base-64 digits and putting it together. */
  lemma Digits(v: nat)
    ensures v == v / 4096 * 4096 + v / 64 % 64 * 64 + v % 64
    ensures v == v / 262144 * 262144 + v / 4096 % 64 * 4096 + v / 64 % 64 * 64 + v % 64
  {
    Shift(v);
  }

  lemma Pack(high: nat, low: nat)
    requires low < 64
    ensures (high * 64 + low) / 64 == high && (high * 64 + low) % 64 == low
  {
  }

  lemma EncodedIsChar(v: nat)
    requires Scalar(v)
    ensures IsChar(Encode(v))
    ensures Value(Encode(v)) == v
  {
    Digits(v);
  }

  lemma CharIsEncoded(s: Bytes)
    requires IsChar(s)
    ensures Value(s) >= 0 && Scalar(Value(s))
    ensures Encode(Value(s)) == s
  {
    if |s| == 2 {
      Pack(Bits(s[0], 0xC0), Bits(s[1], 0x80));
    } else if |s| == 3 {
      ThreeBytes(s);
    } else if |s| == 4 {
      FourBytes(s);
    }
  }

  lemma ThreeBytes(s: Bytes)
    requires |s| == 3 && IsChar(s)
    ensures Value(s) >= 0 && Scalar(Value(s))
    ensures Encode(Value(s)) == s
  {
    var a, b, c := Bits(s[0], 0xE0), Bits(s[1], 0x80), Bits(s[2], 0x80);
    Pack(a, b);
    Pack(a * 64 + b, c);
    Shift(Value(s));
  }

  lemma FourBytes(s: Bytes)
    requires |s| == 4 && IsChar(s)
    ensures Value(s) >= 0 && Scalar(Value(s))
    ensures Encode(Value(s)) == s
  {
    var a, b, c, d := Bits(s[0], 0xF0), Bits(s[1], 0x80), Bits(s[2], 0x80), Bits(s[3], 0x80);
    Pack(a, b);
    Pack(a * 64 + b, c);
    Pack((a * 64 + b) * 64 + c, d);
    Shift(Value(s));
  }

  lemma Shift(v: nat)
    ensures v / 64 / 64 == v / 4096 && v / 4096 / 64 == v / 262144
  {
  }

  ghost predicate Encodes(s: Bytes, v: nat) {
    Scalar(v) && s == Encode(v)
  }

  /** The grammar accepts exactly the encodings of the scalar values: all of them and nothing else. */
  lemma CharsAreEncodedScalars(s: Bytes)
    ensures IsChar(s) <==> exists v: nat :: Encodes(s, v)
  {
    if IsChar(s) {
      CharIsEncoded(s);
      assert Encodes(s, Value(s));
    }
    forall v: nat | Encodes(s, v)
      ensures IsChar(s)
    {
      EncodedIsChar(v);
    }
  }

  /** No two scalar values share an encoding. */
  lemma EncodeIsInjective(v: nat, w: nat)
    requires Scalar(v) && Scalar(w) && Encode(v) == Encode(w)
    ensures v == w
  {
    EncodedIsChar(v);
    EncodedIsChar(w);
  }

  // ------------------------------------------------- one-shot lossy decoding

  /** Length of the character `s` starts with, or 0 when it starts with none. */
  function CharLen(s: Bytes): (n: nat)
    ensures n <= |s| && n <= 4
    ensures n > 0 ==> IsChar(s[..n])
  {
    if |s| >= 1 && IsChar(s[..1]) then 1
    else if |s| >= 2 && IsChar(s[..2]) then 2
    else if |s| >= 3 && IsChar(s[..3]) then 3
    else if |s| >= 4 && IsChar(s[..4]) then 4
    else 0
  }

  /** The maximal subpart at an offset where no character starts. */
  function MaximalSubpart(s: Bytes): (n: nat)
    requires s != [] && CharLen(s) == 0
    ensures 1 <= n <= |s| && n <= 3
    ensures n == 1 || IsPartial(s[..n])
  {
    if |s| >= 3 && IsPartial(s[..3]) then 3
    else if |s| >= 2 && IsPartial(s[..2]) then 2
    else 1
  }

  /**
   * The code's choice is the standard's: the longest prefix that some bytes would complete,
   * or one byte when there is none.
   */
  lemma MaximalSubpartIsMaximal(s: Bytes, k: nat, t: Bytes)
    requires s != [] && CharLen(s) == 0
    ensures MaximalSubpart(s) == 1 || exists u: Bytes :: IsChar(s[..MaximalSubpart(s)] + u)
    ensures MaximalSubpart(s) < k <= |s| ==> !IsChar(s[..k] + t)
  {
    var n := MaximalSubpart(s);
    if n > 1 {
      var u := Completion(s[..n]);
    }
    if n < k <= |s| {
      assert s == s[..k] + s[k..] && s[..k] + [] == s[..k];
      if IsChar(s[..k] + t) {
        PartialIsProperPrefix(s[..k]);
        if t == [] {
          LeadingChar(s[..k], s[k..]);
        }
        assert false;
      }
    }
  }

  /** Bytes consumed by the first decoding step. */
  function TokenLen(s: Bytes): (n: nat)
    requires s != []
    ensures 1 <= n <= |s|
  {
    if CharLen(s) > 0 then CharLen(s) else MaximalSubpart(s)
  }

  /** Text produced by the first decoding step. */
  function TokenText(s: Bytes): (t: Bytes)
    requires s != []
    ensures IsChar(t)
  {
    if CharLen(s) > 0 then s[..CharLen(s)] else REPLACEMENT
  }

  /** `String::from_utf8_lossy`. */
  function Lossy(s: Bytes): Bytes {
    if s == [] then [] else TokenText(s) + Lossy(s[TokenLen(s)..])
  }

  predicate WellFormed(s: Bytes) {
    s == [] || (CharLen(s) > 0 && WellFormed(s[CharLen(s)..]))
  }

  /** Characters are prefix free, so a leading character is found whatever follows. */
  lemma LeadingChar(c: Bytes, rest: Bytes)
    requires IsChar(c)
    ensures CharLen(c + rest) == |c|
    ensures (c + rest)[..|c|] == c && (c + rest)[|c|..] == rest
    ensures !IsPartial(c + rest)
  {
  }

  lemma {:induction false} LossyIsWellFormed(s: Bytes)
    ensures WellFormed(Lossy(s))
    decreases |s|
  {
    if s != [] {
      var rest := Lossy(s[TokenLen(s)..]);
      LossyIsWellFormed(s[TokenLen(s)..]);
      LeadingChar(TokenText(s), rest);
    }
  }

  lemma {:induction false} Utf8PassesThrough(s: Bytes)
    requires WellFormed(s)
    ensures Lossy(s) == s
    decreases |s|
  {
    hide IsChar, CharLen;
    if s != [] {
      var n := CharLen(s);
      assert TokenLen(s) == n && TokenText(s) == s[..n];
      Utf8PassesThrough(s[n..]);
      assert s == s[..n] + s[n..];
    }
  }

  predicate Scalars(vs: seq<nat>) {
    forall i :: 0 <= i < |vs| ==> Scalar(vs[i])
  }

  /** The UTF-8 text of a sequence of scalar values. */
  function EncodeAll(vs: seq<nat>): Bytes
    requires Scalars(vs)
  {
    if vs == [] then [] else Encode(vs[0]) + EncodeAll(vs[1..])
  }

  /** Encoded text is well formed, and so decodes to itself. */
  lemma {:induction false} EncodedTextIsUtf8(vs: seq<nat>)
    requires Scalars(vs)
    ensures WellFormed(EncodeAll(vs)) && Lossy(EncodeAll(vs)) == EncodeAll(vs)
  {
    if vs != [] {
      EncodedTextIsUtf8(vs[1..]);
      EncodedIsChar(vs[0]);
      LeadingChar(Encode(vs[0]), EncodeAll(vs[1..]));
    }
    Utf8PassesThrough(EncodeAll(vs));
  }

  /** Whatever bytes come in, the decoded text is the encoding of some scalar values. */
  lemma {:induction false} Utf8IsEncodedText(s: Bytes) returns (vs: seq<nat>)
    requires WellFormed(s)
    ensures Scalars(vs) && EncodeAll(vs) == s
    decreases |s|
  {
    hide Encode, IsChar;
    if s == [] {
      vs := [];
    } else {
      var c, rest := s[..CharLen(s)], s[CharLen(s)..];
      CharIsEncoded(c);
      var more := Utf8IsEncodedText(rest);
      vs := [Value(c)] + more;
      assert vs[1..] == more && s == c + rest;
    }
  }

  /** Lossy decoding changes a byte string exactly when it is not UTF-8. */
  lemma LossyIsIdentityOnUtf8(s: Bytes)
    ensures Lossy(s) == s <==> WellFormed(s)
  {
  }

  // ------------------------------------------------------ streaming decoding

  /** What one push yields: the text emitted and the bytes held back. */
  datatype Decoded = Decoded(text: Bytes, pending: Bytes)

  /** Decode everything except a trailing partial character. */
  function Commit(s: Bytes): (d: Decoded)
    ensures d.pending == [] || IsPartial(d.pending)
  {
    if s == [] || IsPartial(s) then Decoded([], s)
    else
      var d := Commit(s[TokenLen(s)..]);
      Decoded(TokenText(s) + d.text, d.pending)
  }

  /** The first decoding step does not depend on bytes that arrive later. */
  lemma TokenIsLocal(s: Bytes, t: Bytes)
    requires s != [] && !IsPartial(s)
    ensures TokenLen(s + t) == TokenLen(s)
    ensures TokenText(s + t) == TokenText(s)
    ensures (s + t)[TokenLen(s)..] == s[TokenLen(s)..] + t
  {
    var u := s + t;
    assert forall i :: 0 <= i < |s| ==> u[i] == s[i];
    assert forall k :: 0 <= k <= |s| ==> u[..k] == s[..k];
    if CharLen(s) > 0 {
      LeadingChar(s[..CharLen(s)], s[CharLen(s)..] + t);
      assert u == s[..CharLen(s)] + (s[CharLen(s)..] + t);
    } else {
      NoCharStarts(s, t);
      assert u[MaximalSubpart(s)..] == s[MaximalSubpart(s)..] + t;
    }
  }

  /** Bytes that neither start a character nor may become one stay that way. */
  lemma NoCharStarts(s: Bytes, t: Bytes)
    requires s != [] && !IsPartial(s) && CharLen(s) == 0
    ensures CharLen(s + t) == 0 && MaximalSubpart(s + t) == MaximalSubpart(s)
  {
  }

  /** Decoding a stream is committing a prefix and decoding what is held back with the rest. */
  lemma {:induction false} CommitThenLossy(s: Bytes, t: Bytes)
    ensures Lossy(s + t) == Commit(s).text + Lossy(Commit(s).pending + t)
    decreases |s|
  {
    if s == [] || IsPartial(s) {
      assert [] + Lossy(s + t) == Lossy(s + t);
    } else {
      TokenIsLocal(s, t);
      var n := TokenLen(s);
      CommitThenLossy(s[n..], t);
      assert Lossy(s + t) == TokenText(s) + Lossy(s[n..] + t);
      assert TokenText(s) + (Commit(s[n..]).text + Lossy(Commit(s[n..]).pending + t))
          == (TokenText(s) + Commit(s[n..]).text) + Lossy(Commit(s[n..]).pending + t);
    }
  }

  /** Committing in two goes is committing once. */
  lemma {:induction false} CommitThenCommit(s: Bytes, t: Bytes)
    ensures Commit(s + t) == Decoded(Commit(s).text + Commit(Commit(s).pending + t).text,
                                     Commit(Commit(s).pending + t).pending)
    decreases |s|
  {
    if s == [] || IsPartial(s) {
      assert [] + Commit(s + t).text == Commit(s + t).text;
    } else {
      TokenIsLocal(s, t);
      var n := TokenLen(s);
      NotPartialForever(s, t);
      CommitThenCommit(s[n..], t);
      var mid := Commit(s[n..]);
      assert TokenText(s) + (mid.text + Commit(mid.pending + t).text)
          == (TokenText(s) + mid.text) + Commit(mid.pending + t).text;
    }
  }

  lemma NotPartialForever(s: Bytes, t: Bytes)
    requires s != [] && !IsPartial(s)
    ensures !IsPartial(s + t)
  {
  }

  /** A partial tail decodes to one replacement character. */
  lemma PartialDecodesToReplacement(s: Bytes)
    requires IsPartial(s)
    ensures Lossy(s) == REPLACEMENT
  {
  }

  function Flatten(chunks: seq<Bytes>): Bytes {
    if chunks == [] then [] else Flatten(chunks[..|chunks| - 1]) + chunks[|chunks| - 1]
  }

  /** The decoder state after a run of reads, starting with nothing held back. */
  function PushAll(chunks: seq<Bytes>): (d: Decoded)
    ensures d.pending == [] || IsPartial(d.pending)
  {
    if chunks == [] then Decoded([], [])
    else
      var before := PushAll(chunks[..|chunks| - 1]);
      var step := Commit(before.pending + chunks[|chunks| - 1]);
      Decoded(before.text + step.text, step.pending)
  }

  /** However the stream is cut into reads, the decoder is where one big read would put it. */
  lemma {:induction false} ReadsAreOneRead(chunks: seq<Bytes>)
    ensures PushAll(chunks) == Commit(Flatten(chunks))
    decreases |chunks|
  {
    if chunks != [] {
      var init, last := chunks[..|chunks| - 1], chunks[|chunks| - 1];
      ReadsAreOneRead(init);
      CommitThenCommit(Flatten(init), last);
    }
  }

  /**
   * Chunk invariance: for every stream and every way of cutting it into reads, the text
   * emitted plus the end-of-stream flush is the one-shot decoding of the whole stream, and
   * what is held back between reads is at most three bytes of one unfinished character.
   */
  lemma ChunkInvariance(chunks: seq<Bytes>)
    ensures PushAll(chunks).text + Lossy(PushAll(chunks).pending) == Lossy(Flatten(chunks))
    ensures PushAll(chunks).pending == []
         || exists t: Bytes :: t != [] && IsChar(PushAll(chunks).pending + t)
    ensures |PushAll(chunks).pending| <= 3
  {
    ReadsAreOneRead(chunks);
    var all, d := Flatten(chunks), PushAll(chunks);
    CommitThenLossy(all, []);
    assert all + [] == all && d.pending + [] == d.pending;
    PartialIsProperPrefix(d.pending);
  }

  // ---------------------------------------------------- the decoder as coded

  /** Outcome of `std::str::from_utf8`. */
  datatype Utf8Check = Valid | Invalid(validUpTo: nat, errorLen: Option<nat>)

  /** Length of the longest prefix made of whole characters. */
  function ValidUpTo(s: Bytes): (n: nat)
    ensures n <= |s|
    ensures n == |s| || CharLen(s[n..]) == 0
    ensures n == |s| <==> WellFormed(s)
  {
    if s == [] || CharLen(s) == 0 then 0
    else
      var rest := s[CharLen(s)..];
      var n := ValidUpTo(rest);
      assert s[CharLen(s) + n..] == rest[n..];
      CharLen(s) + n
  }

  function FromUtf8(s: Bytes): (r: Utf8Check)
    ensures r.Valid? <==> WellFormed(s)
    ensures r.Invalid? ==> r.validUpTo < |s|
    ensures r.Invalid? && r.errorLen.Some? ==> 1 <= r.errorLen.value <= |s| - r.validUpTo
  {
    var n := ValidUpTo(s);
    if n == |s| then Valid
    else if IsPartial(s[n..]) then Invalid(n, None)
    else Invalid(n, Some(MaximalSubpart(s[n..])))
  }

  lemma CharStep(c: Bytes, rest: Bytes)
    requires IsChar(c)
    ensures Commit(c + rest) == Decoded(c + Commit(rest).text, Commit(rest).pending)
  {
  }

  /** A maximal subpart that cannot be completed is emitted as a replacement character. */
  lemma ErrorStep(s: Bytes)
    requires s != [] && !IsPartial(s) && CharLen(s) == 0
    ensures var rest := Commit(s[MaximalSubpart(s)..]);
            Commit(s) == Decoded(REPLACEMENT + rest.text, rest.pending)
  {
  }

  lemma {:induction false} ValidPrefixIsUtf8(s: Bytes)
    ensures WellFormed(s[..ValidUpTo(s)])
    decreases |s|
  {
    hide IsChar;
    if s != [] && CharLen(s) > 0 {
      var c, rest := s[..CharLen(s)], s[CharLen(s)..];
      ValidPrefixIsUtf8(rest);
      LeadingChar(c, rest[..ValidUpTo(rest)]);
      assert s[..ValidUpTo(s)] == c + rest[..ValidUpTo(rest)];
    }
  }

  /** Committing passes a leading run of whole characters through unchanged. */
  lemma {:induction false} CommitValidPrefix(valid: Bytes, tail: Bytes)
    requires WellFormed(valid)
    ensures Commit(valid + tail) == Decoded(valid + Commit(tail).text, Commit(tail).pending)
    decreases |valid|
  {
    hide IsChar, CharLen, Commit;
    if valid == [] {
      assert valid + tail == tail && valid + Commit(tail).text == Commit(tail).text;
    } else {
      var c, rest := valid[..CharLen(valid)], valid[CharLen(valid)..];
      assert valid + tail == c + (rest + tail);
      CharStep(c, rest + tail);
      CommitValidPrefix(rest, tail);
      assert c + (rest + Commit(tail).text) == valid + Commit(tail).text;
    }
  }

  lemma HeldBack(tail: Bytes)
    requires tail == [] || IsPartial(tail)
    ensures Commit(tail) == Decoded([], tail)
  {
  }

  /** What committing does, by the three answers `from_utf8` can give. */
  lemma CommitByCheck(s: Bytes, r: Utf8Check)
    requires r == FromUtf8(s)
    ensures r.Valid? ==> Commit(s) == Decoded(s, [])
    ensures r.Invalid? && r.errorLen.None? ==> Commit(s) == Decoded(s[..r.validUpTo], s[r.validUpTo..])
    ensures r.Invalid? && r.errorLen.Some? ==>
              var rest := Commit(s[r.validUpTo + r.errorLen.value..]);
              Commit(s) == Decoded(s[..r.validUpTo] + REPLACEMENT + rest.text, rest.pending)
  {
    hide IsChar, IsPartial, CharLen, MaximalSubpart, Commit, ValidUpTo, WellFormed;
    var n := ValidUpTo(s);
    var valid, tail := s[..n], s[n..];
    ValidPrefixIsUtf8(s);
    CommitValidPrefix(valid, tail);
    assert s == valid + tail;
    assert valid + [] == valid;
    if r.Valid? || r.errorLen.None? {
      HeldBack(tail);
    } else {
      ErrorStep(tail);
      assert tail[r.errorLen.value..] == s[n + r.errorLen.value..];
      var rest := Commit(tail[r.errorLen.value..]);
      assert valid + (REPLACEMENT + rest.text) == valid + REPLACEMENT + rest.text;
    }
  }

  /** `std::str::from_utf8`, in terms of what committing does. */
  method CheckUtf8(s: Bytes) returns (r: Utf8Check)
    ensures r.Invalid? ==> r.validUpTo <= |s|
    ensures r.Invalid? && r.errorLen.Some? ==> 1 <= r.errorLen.value <= |s| - r.validUpTo
    ensures r.Valid? ==> Commit(s) == Decoded(s, [])
    ensures r.Invalid? && r.errorLen.None? ==> Commit(s) == Decoded(s[..r.validUpTo], s[r.validUpTo..])
    ensures r.Invalid? && r.errorLen.Some? ==>
              var after := r.validUpTo + r.errorLen.value;
              var rest := Commit(s[after..]);
              && Commit(s) == Decoded(s[..r.validUpTo] + REPLACEMENT + rest.text, rest.pending)
              && (after == |s| ==> Commit(s) == Decoded(s[..r.validUpTo] + REPLACEMENT, []))
  {
    r := FromUtf8(s);
    CommitByCheck(s, r);
  }

  /** The reader thread's `utf8_pending` buffer. */
  class Utf8Pending {
    var bytes: Bytes

    constructor ()
      ensures bytes == []
    {
      bytes := [];
    }

    /** `push_utf8_chunk`. */
    method PushChunk(chunk: Bytes) returns (out: Bytes)
      modifies this
      ensures Decoded(out, bytes) == Commit(old(bytes) + chunk)
      decreases |bytes| + |chunk|
    {
      hide IsChar, IsPartial, Commit;
      bytes := bytes + chunk;
      ghost var whole := bytes;
      var check := CheckUtf8(bytes);
      if check.Valid? {
        out := bytes;
        bytes := [];
      } else if check.errorLen.None? {
        out := bytes[..check.validUpTo];
        bytes := bytes[check.validUpTo..];
      } else {
        var after := check.validUpTo + check.errorLen.value;
        out := bytes[..check.validUpTo] + REPLACEMENT;
        var rest := if after < |bytes| then bytes[after..] else [];
        assert rest == whole[after..];
        bytes := [];
        if rest != [] {
          var more := PushChunk(rest);
          assert [] + rest == rest;
          out := out + more;
        }
      }
    }
  }
}
