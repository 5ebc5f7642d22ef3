/**
 * The player form's validator (src/components/player/form/schema.ts): a name
 * of at least two characters and three enumerations given as their literal
 * strings. A form that passes yields the typed values the submit works on.
 */
module PlayerSchema {
  import opened Types

  /** The raw values of the form, as the inputs hold them. */
  datatype PlayerFormValues = PlayerFormValues(
    name: string,
    battingHand: string,
    bowlingHand: string,
    bowlingType: string)

  /** The values after validation. */
  datatype PlayerFields = PlayerFields(
    name: string,
    battingHand: Hand,
    bowlingHand: Hand,
    bowlingType: BowlingType)

  datatype Validation = Accepted(fields: PlayerFields) | Rejected(issues: seq<string>)

  const MinNameLength: nat := 2

  /** `z.enum(["Right", "Left", "None"])`. */
  function ParseHand(s: string): (r: Option<Hand>)
    ensures r.Some? ==> HandName(r.value) == s
  {
    if s == "Right" then Some(Right)
    else if s == "Left" then Some(Left)
    else if s == "None" then Some(NoHand)
    else None
  }

  /** The seven literals of `bowlingType`. */
  function ParseBowlingType(s: string): (r: Option<BowlingType>)
    ensures r.Some? ==> BowlingTypeName(r.value) == s
  {
    if s == "Off Spin" then Some(OffSpin)
    else if s == "Leg Spin" then Some(LegSpin)
    else if s == "Left-arm Orthodox" then Some(LeftArmOrthodox)
    else if s == "Left-arm Chinaman" then Some(LeftArmChinaman)
    else if s == "Medium Fast" then Some(MediumFast)
    else if s == "Fast" then Some(Fast)
    else if s == "None" then Some(NoBowling)
    else None
  }

  /**
   * Each enumeration accepts exactly the literals of the corresponding union
   * of the Player type, and each literal reads back as its own value.
   */
  lemma HandEnumIsPlayerUnion(s: string, h: Hand)
    ensures ParseHand(HandName(h)) == Some(h)
    ensures ParseHand(s).Some? <==> exists h': Hand :: HandName(h') == s
  {
    if ParseHand(s).None? {
      forall h': Hand ensures HandName(h') != s {
        assert ParseHand(HandName(h')).Some?;
      }
    }
  }

  lemma BowlingTypeEnumIsPlayerUnion(s: string, b: BowlingType)
    ensures ParseBowlingType(BowlingTypeName(b)) == Some(b)
    ensures ParseBowlingType(s).Some? <==> exists b': BowlingType :: BowlingTypeName(b') == s
  {
    if ParseBowlingType(s).None? {
      forall b': BowlingType ensures BowlingTypeName(b') != s {
        assert ParseBowlingType(BowlingTypeName(b')).Some?;
      }
    }
  }

  /**
   * playerSchema: every field is checked, and the paths of the failing ones are
   * reported in the schema's order; the values are accepted when none fails.
   */
  function Validate(v: PlayerFormValues): (r: Validation)
    ensures r.Accepted? <==>
      |v.name| >= MinNameLength && ParseHand(v.battingHand).Some? && ParseHand(v.bowlingHand).Some?
      && ParseBowlingType(v.bowlingType).Some?
    ensures r.Accepted? ==>
      r.fields.name == v.name
      && HandName(r.fields.battingHand) == v.battingHand
      && HandName(r.fields.bowlingHand) == v.bowlingHand
      && BowlingTypeName(r.fields.bowlingType) == v.bowlingType
    ensures r.Rejected? ==>
      ("name" in r.issues <==> |v.name| < MinNameLength)
      && ("battingHand" in r.issues <==> ParseHand(v.battingHand).None?)
      && ("bowlingHand" in r.issues <==> ParseHand(v.bowlingHand).None?)
      && ("bowlingType" in r.issues <==> ParseBowlingType(v.bowlingType).None?)
  {
    var issues :=
      (if |v.name| < MinNameLength then ["name"] else [])
      + (if ParseHand(v.battingHand).None? then ["battingHand"] else [])
      + (if ParseHand(v.bowlingHand).None? then ["bowlingHand"] else [])
      + (if ParseBowlingType(v.bowlingType).None? then ["bowlingType"] else []);
    if issues == [] then
      Accepted(PlayerFields(v.name, ParseHand(v.battingHand).value, ParseHand(v.bowlingHand).value,
                            ParseBowlingType(v.bowlingType).value))
    else Rejected(issues)
  }

  /** What a validated form shows again when it is loaded back: the same raw values. */
  function FormValuesOf(f: PlayerFields): PlayerFormValues
  {
    PlayerFormValues(f.name, HandName(f.battingHand), HandName(f.bowlingHand), BowlingTypeName(f.bowlingType))
  }

  /** Validation and printing back are inverse on every form a valid name allows. */
  lemma ValidateRoundTrip(f: PlayerFields)
    requires |f.name| >= MinNameLength
    ensures Validate(FormValuesOf(f)) == Accepted(f)
  {
    HandEnumIsPlayerUnion("", f.battingHand);
    HandEnumIsPlayerUnion("", f.bowlingHand);
    BowlingTypeEnumIsPlayerUnion("", f.bowlingType);
  }

  lemma ValidateThenPrint(v: PlayerFormValues)
    requires Validate(v).Accepted?
    ensures FormValuesOf(Validate(v).fields) == v
  {
  }

  /** The form's default values (name empty, right-handed, no bowling). */
  const DefaultValues: PlayerFormValues := PlayerFormValues("", "Right", "Right", "None")

  /**
   * The defaults fail only on the name; with a valid name they give a
   * right-handed batsman and right-arm bowler whose bowling type is None.
   */
  lemma DefaultsNeedOnlyAName(name: string)
    ensures Validate(DefaultValues) == Rejected(["name"])
    ensures |name| >= MinNameLength ==>
      Validate(DefaultValues.(name := name)) == Accepted(PlayerFields(name, Right, Right, NoBowling))
  {
  }
}
