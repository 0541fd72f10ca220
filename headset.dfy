/**
 * The packets of the ThinkGear headset bridge and `HeadsetData.from`, which picks
 * the packet type for one line of JSON by looking for a distinguishing substring.
 */
module Headset {
  import opened Wrappers

  datatype ESenseData = ESenseData(attention: int, meditation: int)

  datatype EEGPowerData = EEGPowerData(
    delta: int, theta: int, lowAlpha: int, highAlpha: int,
    lowBeta: int, highBeta: int, lowGamma: int, highGamma: int)

  /** The six packet records; Kotlin `Double` fields are modelled as `real`. */
  datatype HeadsetData =
    | StatusReport(poorSignalLevel: int, status: string)
    | GeneralData(eSense: ESenseData, eegPower: EEGPowerData, poorSignalLevel: int)
    | BlinkStrength(blinkStrength: int)
    | MentalEffort(mentalEffort: real)
    | Familiarity(familiarity: real)
    | RawData(rawEeg: int)

  /** The branch of the `when` expression in `from`, one per packet record. */
  datatype Tag = StatusKey | ESenseKey | BlinkKey | MentalKey | FamiliarityKey | RawKey

  /** The substring that selects a branch. */
  function Key(t: Tag): string
  {
    match t
    case StatusKey => "status"
    case ESenseKey => "eSense"
    case BlinkKey => "blink"
    case MentalKey => "mental"
    case FamiliarityKey => "familiarity"
    case RawKey => "raw"
  }

  /** The position of a branch in the `when` expression: lower is tested first. */
  function Rank(t: Tag): nat
  {
    match t
    case StatusKey => 0
    case ESenseKey => 1
    case BlinkKey => 2
    case MentalKey => 3
    case FamiliarityKey => 4
    case RawKey => 5
  }

  /** The branch whose `readValue` call produces a record of this shape. */
  function TagOf(p: HeadsetData): Tag
  {
    match p
    case StatusReport(_, _) => StatusKey
    case GeneralData(_, _, _) => ESenseKey
    case BlinkStrength(_) => BlinkKey
    case MentalEffort(_) => MentalKey
    case Familiarity(_) => FamiliarityKey
    case RawData(_) => RawKey
  }

  /** `key` occurs in `line` starting at index `i`. */
  ghost predicate OccursAt(line: string, key: string, i: nat)
  {
    i + |key| <= |line| && line[i..i + |key|] == key
  }

  /** Kotlin's `key in line`: plain, case-sensitive substring containment. */
  function Contains(line: string, key: string): (b: bool)
    ensures b <==> exists i: nat :: OccursAt(line, key, i)
    decreases |line|
  {
    if |line| < |key| then
      false
    else if line[..|key|] == key then
      assert OccursAt(line, key, 0);
      true
    else
      assert forall i: nat :: 0 < i ==> (OccursAt(line, key, i) <==> OccursAt(line[1..], key, i - 1)) by {
        forall i: nat | 0 < i ensures OccursAt(line, key, i) <==> OccursAt(line[1..], key, i - 1) {
          if i + |key| <= |line| {
            assert line[1..][i - 1..i - 1 + |key|] == line[i..i + |key|];
          }
        }
      }
      assert forall i: nat :: OccursAt(line[1..], key, i) ==> OccursAt(line, key, i + 1);
      assert !OccursAt(line, key, 0);
      Contains(line[1..], key)
  }

  /**
   * The branch `from` takes: the first key, in the order of the `when`
   * expression, that occurs in the line; None when no key occurs.
   */
  function Classify(line: string): (r: Option<Tag>)
    ensures r.Some? ==> Contains(line, Key(r.value))
    ensures r.Some? ==> forall t :: Rank(t) < Rank(r.value) ==> !Contains(line, Key(t))
    ensures r.None? <==> forall t :: !Contains(line, Key(t))
  {
    if Contains(line, Key(StatusKey)) then Some(StatusKey)
    else if Contains(line, Key(ESenseKey)) then Some(ESenseKey)
    else if Contains(line, Key(BlinkKey)) then Some(BlinkKey)
    else if Contains(line, Key(MentalKey)) then Some(MentalKey)
    else if Contains(line, Key(FamiliarityKey)) then Some(FamiliarityKey)
    else if Contains(line, Key(RawKey)) then Some(RawKey)
    else None
  }

  /**
   * The exceptions decoding can raise: Jackson's JsonParseException (not JSON at all),
   * Jackson's other JsonProcessingExceptions (well-formed JSON that does not fit the
   * record), and the IllegalArgumentException `from` throws for an unrecognised line.
   */
  datatype DecodeError = JsonParseError | JsonMappingError | Unrecognized

  type ReadValue = (Tag, string) -> Result<HeadsetData, DecodeError>

  /** What Kotlin's types promise of `mapper.readValue<T>`: a T, or a Jackson exception. */
  ghost predicate Typed(readValue: ReadValue)
  {
    forall t, s ::
      (readValue(t, s).Success? ==> TagOf(readValue(t, s).value) == t) &&
      (readValue(t, s).Failure? ==> readValue(t, s).error != Unrecognized)
  }

  /** Jackson's object mapper, a foreign library, as a parameter of the model. */
  type Mapper = readValue: ReadValue | Typed(readValue)
    ghost witness (t: Tag, s: string) => Failure(JsonParseError)

  /** `HeadsetData.from`: decode a line as the record its first key selects. */
  function From(line: string, readValue: Mapper): (r: Result<HeadsetData, DecodeError>)
    ensures r == Failure(Unrecognized) <==> Classify(line).None?
    ensures r.Success? ==> Classify(line) == Some(TagOf(r.value))
    ensures Classify(line).Some? ==> r == readValue(Classify(line).value, line)
  {
    match Classify(line)
    case Some(t) => readValue(t, line)
    case None => Failure(Unrecognized)
  }

  type Decoder = string -> Result<HeadsetData, DecodeError>

  /** `HeadsetData::from` with a fixed mapper, as the function value the read loop maps over the lines. */
  function Decode(readValue: Mapper): (decode: Decoder)
  {
    line => From(line, readValue)
  }

  /** The priority order: a line that contains `status` is a StatusReport, whatever else it contains. */
  lemma StatusFirst(line: string, readValue: Mapper)
    requires Contains(line, "status")
    ensures Classify(line) == Some(StatusKey)
    ensures From(line, readValue) == readValue(StatusKey, line)
  {
  }

  /** The converse of Classify's contract: its key present and no earlier key present selects a branch. */
  lemma ClassifyFirstKey(line: string, t: Tag)
    requires Contains(line, Key(t))
    requires forall u :: Rank(u) < Rank(t) ==> !Contains(line, Key(u))
    ensures Classify(line) == Some(t)
  {
    assert Rank(StatusKey) < Rank(t) ==> !Contains(line, Key(StatusKey));
    assert Rank(ESenseKey) < Rank(t) ==> !Contains(line, Key(ESenseKey));
    assert Rank(BlinkKey) < Rank(t) ==> !Contains(line, Key(BlinkKey));
    assert Rank(MentalKey) < Rank(t) ==> !Contains(line, Key(MentalKey));
    assert Rank(FamiliarityKey) < Rank(t) ==> !Contains(line, Key(FamiliarityKey));
  }

  /** Decoding yields a record of exactly the branch the line selects, or an error. */
  lemma FromYieldsSelectedVariant(line: string, readValue: Mapper, t: Tag)
    requires From(line, readValue).Success?
    ensures TagOf(From(line, readValue).value) == t <==> Classify(line) == Some(t)
  {
  }

  /** A line that contains a longer field name contains each of its prefixes. */
  lemma ContainsPrefix(line: string, field: string, key: string)
    requires |key| <= |field| && field[..|key|] == key
    requires Contains(line, field)
    ensures Contains(line, key)
  {
    var i: nat :| OccursAt(line, field, i);
    assert line[i..i + |key|] == field[..|key|];
    assert OccursAt(line, key, i);
  }

  /** Every character of a contained key occurs in the line. */
  lemma KeyCharacterInLine(line: string, key: string, j: nat)
    requires j < |key|
    ensures Contains(line, key) ==> key[j] in line
  {
    if Contains(line, key) {
      var i: nat :| OccursAt(line, key, i);
      assert line[i..i + |key|][j] == line[i + j];
    }
  }

  /** A key with a character that never occurs in the line is not contained in it. */
  lemma AbsentByCharacter(line: string, key: string, j: nat)
    requires j < |key| && key[j] !in line
    ensures !Contains(line, key)
  {
    KeyCharacterInLine(line, key, j);
  }

  /**
   * A BlinkStrength line goes to the `blink` branch through the prefix of
   * `blinkStrength`: its field name holds no lower-case `s`, and both `status` and
   * `eSense` do.
   */
  lemma BlinkStrengthSelectsBlink(line: string)
    requires Contains(line, "blinkStrength") && 's' !in line
    ensures Classify(line) == Some(BlinkKey)
  {
    ContainsPrefix(line, "blinkStrength", "blink");
    AbsentByCharacter(line, Key(StatusKey), 0);
    AbsentByCharacter(line, Key(ESenseKey), 4);
  }

  /**
   * A MentalEffort line goes to the `mental` branch through the prefix of
   * `mentalEffort`: with no `s` and no `b`, none of the three earlier keys occurs.
   */
  lemma MentalEffortSelectsMental(line: string)
    requires Contains(line, "mentalEffort") && 's' !in line && 'b' !in line
    ensures Classify(line) == Some(MentalKey)
  {
    ContainsPrefix(line, "mentalEffort", "mental");
    AbsentByCharacter(line, Key(StatusKey), 0);
    AbsentByCharacter(line, Key(ESenseKey), 4);
    AbsentByCharacter(line, Key(BlinkKey), 0);
  }

  /**
   * A Familiarity line goes to the `familiarity` branch: with no `s`, `b` or `e`,
   * none of the four earlier keys occurs.
   */
  lemma FamiliaritySelectsFamiliarity(line: string)
    requires Contains(line, "familiarity") && 's' !in line && 'b' !in line && 'e' !in line
    ensures Classify(line) == Some(FamiliarityKey)
  {
    AbsentByCharacter(line, Key(StatusKey), 0);
    AbsentByCharacter(line, Key(ESenseKey), 4);
    AbsentByCharacter(line, Key(BlinkKey), 0);
    AbsentByCharacter(line, Key(MentalKey), 1);
  }

  /**
   * A RawData line goes to the `raw` branch through the prefix of `rawEeg`: with no
   * `s`, `b`, `m` or `f`, none of the five earlier keys occurs.
   */
  lemma RawEegSelectsRaw(line: string)
    requires Contains(line, "rawEeg") && 's' !in line && 'b' !in line && 'm' !in line && 'f' !in line
    ensures Classify(line) == Some(RawKey)
  {
    ContainsPrefix(line, "rawEeg", "raw");
    AbsentByCharacter(line, Key(StatusKey), 0);
    AbsentByCharacter(line, Key(ESenseKey), 4);
    AbsentByCharacter(line, Key(BlinkKey), 0);
    AbsentByCharacter(line, Key(MentalKey), 0);
    AbsentByCharacter(line, Key(FamiliarityKey), 0);
  }

  /**
   * A GeneralData line goes to the `eSense` branch: none of its field names (`eSense`,
   * `attention`, `meditation`, `eegPower`, the eight band names, `poorSignalLevel`)
   * holds a `u`, so a line made of them cannot contain `status`.
   */
  lemma GeneralDataSelectsESense(line: string)
    requires Contains(line, "eSense") && 'u' !in line
    ensures Classify(line) == Some(ESenseKey)
  {
    AbsentByCharacter(line, Key(StatusKey), 4);
  }

  /** A bridge status line is a StatusReport. */
  lemma StatusLineIsStatusReport(line: string)
    requires line == "{\"poorSignalLevel\":200,\"status\":\"scanning\"}"
    ensures Classify(line) == Some(StatusKey)
  {
    assert OccursAt(line, "status", 24);
  }

  /** A line missing the first letter of every key selects no branch: `from` rejects it. */
  lemma NoKeyLetterIsUnrecognized(line: string, readValue: Mapper)
    requires 's' !in line && 'e' !in line && 'b' !in line && 'm' !in line && 'f' !in line && 'r' !in line
    ensures From(line, readValue) == Failure(Unrecognized)
  {
    AbsentByCharacter(line, Key(StatusKey), 0);
    AbsentByCharacter(line, Key(ESenseKey), 0);
    AbsentByCharacter(line, Key(BlinkKey), 0);
    AbsentByCharacter(line, Key(MentalKey), 0);
    AbsentByCharacter(line, Key(FamiliarityKey), 0);
    AbsentByCharacter(line, Key(RawKey), 0);
  }

  /** Matching is case-sensitive: an upper-case `STATUS` selects no branch. */
  lemma UpperCaseKeyIsUnrecognized(line: string, readValue: Mapper)
    requires line == "{\"STATUS\":1}"
    ensures From(line, readValue) == Failure(Unrecognized)
  {
    NoKeyLetterIsUnrecognized(line, readValue);
  }
}
