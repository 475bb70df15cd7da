// The byte records of the result cache: writing, reading, and telling old
// energy/force records from records that carry result metadata.
module CacheRecords {
  import opened Wrappers
  import opened Sequences

  type Byte = b: int | 0 <= b < 256

  // A double as the eight bytes that are copied.
  type Word = w: seq<Byte> | |w| == 8 witness [0, 0, 0, 0, 0, 0, 0, 0]

  const ZERO: Word := [0, 0, 0, 0, 0, 0, 0, 0]

  function Zeros(n: nat): (ws: seq<Word>)
    ensures |ws| == n && forall i :: 0 <= i < n ==> ws[i] == ZERO
  {
    seq(n, _ => ZERO)
  }

  // "RGPOTR1" and its terminating zero.
  const RESULT_MARKER: seq<Byte> := [82, 71, 80, 79, 84, 82, 49, 0]

  const RESULT_METADATA_BYTES := 8 + 10 * 8 + 1

  function EnergyForceBytes(nAtoms: nat): nat {
    (1 + 3 * nAtoms) * 8
  }

  // The result of one force evaluation, with the flag as the integer it is.
  datatype Output = Output(energy: Word, forces: seq<Word>, variance: Word, stress: seq<Word>, hasStress: int)

  predicate Sized(out: Output, nAtoms: nat) {
    |out.forces| == 3 * nAtoms && |out.stress| == 9
  }

  // What a record can say: the flag is 0 or 1 and no flag means no stress.
  function Normal(out: Output): Output {
    if out.hasStress == 0 then out.(stress := Zeros(9)) else out.(hasStress := 1)
  }

  function Flatten(ws: seq<Word>): (bytes: seq<Byte>)
    ensures |bytes| == 8 * |ws|
  {
    if ws == [] then [] else ws[0] + Flatten(ws[1..])
  }

  // n words read from position p.
  function WordsAt(bytes: seq<Byte>, p: nat, n: nat): (ws: seq<Word>)
    requires p + 8 * n <= |bytes|
    ensures |ws| == n
    decreases n
  {
    if n == 0 then [] else [bytes[p..p + 8]] + WordsAt(bytes, p + 8, n - 1)
  }

  // ---- Writing ----

  // The layout of a record, field by field.
  function Encode(out: Output, nAtoms: nat): (bytes: seq<Byte>)
    requires Sized(out, nAtoms)
    ensures |bytes| == EnergyForceBytes(nAtoms) + RESULT_METADATA_BYTES
  {
    Flatten([out.energy] + out.forces) + RESULT_MARKER
    + Flatten([out.variance] + (if out.hasStress != 0 then out.stress else Zeros(9)))
    + [if out.hasStress != 0 then 1 else 0]
  }

  // memcpy to a position up to which the buffer already holds done.
  method CopyBytes(buffer: array<Byte>, at: nat, bytes: seq<Byte>, ghost done: seq<Byte>)
    requires at + |bytes| <= buffer.Length && buffer[..at] == done
    modifies buffer
    ensures buffer[..at + |bytes|] == done + bytes
    ensures forall i :: at + |bytes| <= i < buffer.Length ==> buffer[i] == old(buffer[i])
  {
    forall i | 0 <= i < |bytes| {
      buffer[at + i] := bytes[i];
    }
  }

  // add_serialized up to the database call: a zeroed buffer filled by copies.
  method Serialize(out: Output, nAtoms: nat) returns (record: seq<Byte>)
    requires Sized(out, nAtoms)
    ensures record == Encode(out, nAtoms)
  {
    hide Encode, Flatten, EnergyForceBytes;
    EnergyForceSize(nAtoms);
    var prefix := EnergyForceBytes(nAtoms);
    var size := prefix + RESULT_METADATA_BYTES;
    var buffer := new Byte[size](_ => 0);
    ghost var done := out.energy;
    CopyBytes(buffer, 0, out.energy, []);
    CopyBytes(buffer, 8, Flatten(out.forces), done);
    done := done + Flatten(out.forces);
    assert |done| == prefix;
    CopyBytes(buffer, prefix, RESULT_MARKER, done);
    done := done + RESULT_MARKER;
    var metadata := prefix + 8;
    CopyBytes(buffer, metadata, out.variance, done);
    done := done + out.variance;
    assert metadata + 8 == size - 73;
    if out.hasStress != 0 {
      CopyBytes(buffer, metadata + 8, Flatten(out.stress), done);
      done := done + Flatten(out.stress);
      buffer[buffer.Length - 1] := 1;
      assert buffer[..size - 1] == done;
      assert buffer[..] == done + [1];
    } else {
      assert buffer[size - 73..] == ZeroBytes(72) + [0];
      FlattenZeros(9);
      assert buffer[..] == done + (ZeroBytes(72) + [0]);
      Assoc(done, ZeroBytes(72), [0]);
    }
    record := buffer[..];
    EncodeParts(out, nAtoms);
  }

  lemma EnergyForceSize(nAtoms: nat)
    ensures EnergyForceBytes(nAtoms) == 8 + 8 * (3 * nAtoms)
  {
  }

  function ZeroBytes(n: nat): seq<Byte> {
    seq(n, _ => 0)
  }

  lemma {:induction false} FlattenZeros(n: nat)
    ensures Flatten(Zeros(n)) == ZeroBytes(8 * n)
  {
    if n > 0 {
      FlattenZeros(n - 1);
      assert Zeros(n)[1..] == Zeros(n - 1);
    }
  }

  lemma EncodeParts(out: Output, nAtoms: nat)
    requires Sized(out, nAtoms)
    ensures Encode(out, nAtoms)
         == out.energy + Flatten(out.forces) + RESULT_MARKER + out.variance
            + Flatten(if out.hasStress != 0 then out.stress else Zeros(9))
            + [if out.hasStress != 0 then 1 else 0]
  {
    var stress := if out.hasStress != 0 then out.stress else Zeros(9);
    assert ([out.energy] + out.forces)[1..] == out.forces;
    assert ([out.variance] + stress)[1..] == stress;
    Assoc(out.energy + Flatten(out.forces) + RESULT_MARKER, out.variance, Flatten(stress));
  }

  // ---- Reading ----

  predicate HasResultMetadata(value: seq<Byte>, nAtoms: nat) {
    var prefix := EnergyForceBytes(nAtoms);
    && |value| == prefix + RESULT_METADATA_BYTES
    && value[prefix..prefix + 8] == RESULT_MARKER
    && value[|value| - 1] <= 1
  }

  // None is the exception for an incomplete record.
  function Decode(value: seq<Byte>, nAtoms: nat): (r: Option<Output>)
    ensures r.Some? ==> Sized(r.value, nAtoms)
  {
    var prefix := EnergyForceBytes(nAtoms);
    if |value| < prefix then None
    else
      var energy, forces: seq<Word> := value[..8], WordsAt(value, 8, 3 * nAtoms);
      if HasResultMetadata(value, nAtoms) then
        var metadata := prefix + 8;
        Some(Output(energy, forces, value[metadata..metadata + 8], WordsAt(value, metadata + 8, 9), value[|value| - 1]))
      else Some(Output(energy, forces, ZERO, Zeros(9), 0))
  }

  // ---- Round trips ----

  lemma {:induction false} WordsOfFlatten(before: seq<Byte>, ws: seq<Word>, after: seq<Byte>)
    ensures WordsAt(before + Flatten(ws) + after, |before|, |ws|) == ws
    decreases |ws|
  {
    if ws != [] {
      var rest := Flatten(ws[1..]);
      WordsOfFlatten(before + ws[0], ws[1..], after);
      assert before + (ws[0] + rest) + after == before + ws[0] + rest + after;
      assert (before + ws[0] + rest + after)[|before|..|before| + 8] == ws[0];
      assert ws == [ws[0]] + ws[1..];
    }
  }

  lemma Middle(a: seq<Byte>, b: seq<Byte>, c: seq<Byte>)
    ensures (a + b + c)[|a|..|a| + |b|] == b
  {
  }

  function StressOf(out: Output): seq<Word> {
    if out.hasStress != 0 then out.stress else Zeros(9)
  }

  function FlagOf(out: Output): seq<Byte> {
    [if out.hasStress != 0 then 1 else 0]
  }

  lemma RecordMarker(out: Output, nAtoms: nat)
    requires Sized(out, nAtoms)
    ensures HasResultMetadata(Encode(out, nAtoms), nAtoms)
  {
    EncodeParts(out, nAtoms);
    var front, v, s, flag := out.energy + Flatten(out.forces), out.variance, Flatten(StressOf(out)), FlagOf(out);
    hide Encode, Flatten;
    Middle(front, RESULT_MARKER, v + s + flag);
    Assoc(front + RESULT_MARKER, v + s, flag);
    Assoc(front + RESULT_MARKER, v, s);
  }

  lemma RecordForces(out: Output, nAtoms: nat)
    requires Sized(out, nAtoms)
    ensures Encode(out, nAtoms)[..8] == out.energy
    ensures WordsAt(Encode(out, nAtoms), 8, 3 * nAtoms) == out.forces
  {
    EncodeParts(out, nAtoms);
    var front, v, s, flag := out.energy + Flatten(out.forces), out.variance, Flatten(StressOf(out)), FlagOf(out);
    hide Encode, Flatten, WordsAt;
    Assoc(front, RESULT_MARKER, v);
    Assoc(front, RESULT_MARKER + v, s);
    Assoc(front, RESULT_MARKER + v + s, flag);
    WordsOfFlatten(out.energy, out.forces, RESULT_MARKER + v + s + flag);
  }

  lemma RecordResult(out: Output, nAtoms: nat)
    requires Sized(out, nAtoms)
    ensures var value, at := Encode(out, nAtoms), EnergyForceBytes(nAtoms) + 8;
      && value[at..at + 8] == out.variance
      && WordsAt(value, at + 8, 9) == StressOf(out)
      && value[|value| - 1] == FlagOf(out)[0]
  {
    EncodeParts(out, nAtoms);
    var front, v, s, flag := out.energy + Flatten(out.forces) + RESULT_MARKER, out.variance, Flatten(StressOf(out)), FlagOf(out);
    hide Encode, Flatten, WordsAt;
    Assoc(front + v, s, flag);
    Middle(front, v, s + flag);
    WordsOfFlatten(front + v, StressOf(out), flag);
  }

  // Reading a written record restores it up to the flag, for every atom
  // count and every flag value.
  lemma RecordRoundTrip(out: Output, nAtoms: nat)
    requires Sized(out, nAtoms)
    ensures HasResultMetadata(Encode(out, nAtoms), nAtoms)
    ensures Decode(Encode(out, nAtoms), nAtoms) == Some(Normal(out))
  {
    RecordMarker(out, nAtoms);
    RecordForces(out, nAtoms);
    RecordResult(out, nAtoms);
    hide Encode, WordsAt, HasResultMetadata;
  }

  // Records written before metadata existed hold whole words only, and the
  // odd length of a metadata record is never theirs.
  lemma LegacyNeverMetadata(ws: seq<Word>, nAtoms: nat)
    ensures !HasResultMetadata(Flatten(ws), nAtoms)
  {
  }

  lemma LegacyDecodes(energy: Word, forces: seq<Word>, nAtoms: nat)
    ensures Decode(Flatten([energy] + forces), nAtoms) ==
      if |forces| < 3 * nAtoms then None
      else Some(Output(energy, forces[..3 * nAtoms], ZERO, Zeros(9), 0))
  {
    LegacyNeverMetadata([energy] + forces, nAtoms);
    if |forces| >= 3 * nAtoms {
      LegacyForces(energy, forces, 3 * nAtoms);
    }
    hide Flatten, WordsAt, HasResultMetadata;
  }

  lemma LegacyForces(energy: Word, forces: seq<Word>, n: nat)
    requires n <= |forces|
    ensures Flatten([energy] + forces)[..8] == energy
    ensures WordsAt(Flatten([energy] + forces), 8, n) == forces[..n]
  {
    FlattenCons(energy, forces);
    var mine, rest := forces[..n], forces[n..];
    FlattenConcat(mine, rest);
    assert mine + rest == forces;
    hide Flatten, WordsAt;
    Assoc(energy, Flatten(mine), Flatten(rest));
    WordsOfFlatten(energy, mine, Flatten(rest));
  }

  lemma FlattenCons(w: Word, ws: seq<Word>)
    ensures Flatten([w] + ws) == w + Flatten(ws)
  {
    assert ([w] + ws)[1..] == ws;
  }

  lemma {:induction false} FlattenConcat(a: seq<Word>, b: seq<Word>)
    ensures Flatten(a + b) == Flatten(a) + Flatten(b)
  {
    if a == [] {
      assert a + b == b;
    } else {
      ConsConcat(a, b);
      FlattenConcat(a[1..], b);
      Assoc(a[0], Flatten(a[1..]), Flatten(b));
    }
  }

  // ---- The layout, byte by byte ----

  // The words of ws stand one after the other from position p on.
  predicate StandAt(value: seq<Byte>, p: nat, ws: seq<Word>) {
    p + 8 * |ws| <= |value| && forall i :: 0 <= i < |ws| ==> value[p + 8 * i..p + 8 * i + 8] == ws[i]
  }

  lemma {:induction false} WordsAtAre(bytes: seq<Byte>, p: nat, n: nat)
    requires p + 8 * n <= |bytes|
    ensures StandAt(bytes, p, WordsAt(bytes, p, n))
    decreases n
  {
    if n > 0 {
      WordsAtAre(bytes, p + 8, n - 1);
      var ws, rest := WordsAt(bytes, p, n), WordsAt(bytes, p + 8, n - 1);
      hide WordsAt;
      forall i | 0 <= i < n
        ensures bytes[p + 8 * i..p + 8 * i + 8] == ws[i]
      {
        if i > 0 {
          assert ws[i] == rest[i - 1];
        }
      }
    }
  }

  lemma SameWords(value: seq<Byte>, p: nat, a: seq<Word>, b: seq<Word>)
    requires StandAt(value, p, a) && StandAt(value, p, b) && |a| == |b|
    ensures a == b
  {
    forall i | 0 <= i < |a|
      ensures a[i] == b[i]
    {
      assert value[p + 8 * i..p + 8 * i + 8] == a[i];
    }
  }

  // "RGPOTR1" and a zero.
  predicate MarkerAt(value: seq<Byte>, p: nat) {
    p + 8 <= |value| && (forall i :: 0 <= i < 7 ==> value[p + i] == "RGPOTR1"[i] as int) && value[p + 7] == 0
  }

  // A record of n atoms with metadata: energy, forces, the marker, variance,
  // stress, flag.
  predicate IsRecordOf(value: seq<Byte>, out: Output, n: nat) {
    && |value| == 24 * n + 97
    && value[..8] == out.energy && StandAt(value, 8, out.forces)
    && MarkerAt(value, 24 * n + 8)
    && value[24 * n + 16..24 * n + 24] == out.variance && StandAt(value, 24 * n + 24, out.stress)
    && value[24 * n + 96] == out.hasStress && (out.hasStress == 0 || out.hasStress == 1)
  }

  lemma MarkerSpelled(value: seq<Byte>, p: nat)
    requires p + 8 <= |value|
    ensures value[p..p + 8] == RESULT_MARKER <==> MarkerAt(value, p)
  {
    var s, text := value[p..p + 8], "RGPOTR1";
    assert forall i :: 0 <= i < 8 ==> s[i] == value[p + i];
    assert text[0] as int == 82 && text[1] as int == 71 && text[2] as int == 80 && text[3] as int == 79;
    assert text[4] as int == 84 && text[5] as int == 82 && text[6] as int == 49;
    if MarkerAt(value, p) {
      assert s[0] == 82 && s[1] == 71 && s[2] == 80 && s[3] == 79 && s[4] == 84 && s[5] == 82 && s[6] == 49 && s[7] == 0;
    }
  }

  lemma DecodedParts(value: seq<Byte>, n: nat)
    requires |value| >= 24 * n + 8
    ensures Decode(value, n).Some? && Decode(value, n).value.energy == value[..8]
    ensures StandAt(value, 8, Decode(value, n).value.forces)
  {
    WordsAtAre(value, 8, 3 * n);
    hide WordsAt, StandAt, HasResultMetadata;
  }

  lemma MetadataSpelled(value: seq<Byte>, n: nat)
    ensures HasResultMetadata(value, n) <==>
      |value| == 24 * n + 97 && MarkerAt(value, 24 * n + 8) && value[24 * n + 96] <= 1
  {
    if |value| == 24 * n + 97 {
      MarkerSpelled(value, 24 * n + 8);
    }
    hide MarkerAt;
  }

  lemma MetadataDecoded(value: seq<Byte>, n: nat)
    requires HasResultMetadata(value, n)
    ensures Decode(value, n).Some? && IsRecordOf(value, Decode(value, n).value, n)
  {
    MetadataSpelled(value, n);
    DecodedParts(value, n);
    WordsAtAre(value, 24 * n + 24, 9);
    hide WordsAt, StandAt, HasResultMetadata, MarkerAt;
  }

  lemma OneReading(value: seq<Byte>, a: Output, b: Output, n: nat)
    requires IsRecordOf(value, a, n) && IsRecordOf(value, b, n) && Sized(a, n) && Sized(b, n)
    ensures a == b
  {
    SameWords(value, 8, a.forces, b.forces);
    SameWords(value, 24 * n + 24, a.stress, b.stress);
    hide StandAt, MarkerAt;
  }

  // Any bytes: too short for energy and forces; or a record with metadata,
  // read as laid out; or energy and forces alone, whatever follows.
  lemma DecodesExactly(value: seq<Byte>, n: nat)
    ensures Decode(value, n).None? <==> |value| < 24 * n + 8
    ensures Decode(value, n).Some? ==>
      var out := Decode(value, n).value;
      && value[..8] == out.energy && StandAt(value, 8, out.forces)
      && (IsRecordOf(value, out, n) || (out.variance == ZERO && out.stress == Zeros(9) && out.hasStress == 0))
    ensures forall out :: Sized(out, n) && IsRecordOf(value, out, n) ==> Decode(value, n) == Some(out)
  {
    if |value| >= 24 * n + 8 {
      DecodedParts(value, n);
      MetadataSpelled(value, n);
      if HasResultMetadata(value, n) {
        MetadataDecoded(value, n);
        hide Decode, IsRecordOf;
        forall out | Sized(out, n) && IsRecordOf(value, out, n)
          ensures Decode(value, n) == Some(out)
        {
          OneReading(value, out, Decode(value, n).value, n);
        }
      }
      hide WordsAt, StandAt, MarkerAt, HasResultMetadata;
    }
  }

  // What is written is laid out so.
  lemma WrittenAsLaidOut(out: Output, n: nat)
    requires Sized(out, n)
    ensures IsRecordOf(Encode(out, n), Normal(out), n)
  {
    RecordRoundTrip(out, n);
    MetadataDecoded(Encode(out, n), n);
  }
}
