/**
 * The [Flags] enums of the plugin as 32-bit masks, the toggle rule all three
 * preference flags share, and the FlagHandler that keeps the argument and
 * configuration flags in the preference store.
 */
module Flags {
  import Preferences

  type Mask = bv32

  // ArgumentFlag
  const ArgumentNone: Mask := 0
  const Argument: Mask := 1
  const Setup: Mask := 2

  // ConfigFlag
  const ConfigNone: Mask := 0
  const Workspace: Mask := 1
  const OmniSharp: Mask := 2
  const EditorConfig: Mask := 4

  // ProjectGenerationFlag
  const GenerationNone: Mask := 0
  const Embedded: Mask := 1
  const Local: Mask := 2
  const Registry: Mask := 4
  const Git: Mask := 8
  const BuiltIn: Mask := 16
  const Unknown: Mask := 32
  const PlayerAssemblies: Mask := 64
  const LocalTarBall: Mask := 128

  const ArgumentFlagKey := "unity_argument_flag"
  const ConfigFlagKey := "unity_config_flag"
  const ProjectGenerationFlagKey := "unity_project_generation_flag"

  /** `Enum.HasFlag`: every bit of `preference` is set. */
  predicate HasFlag(flags: Mask, preference: Mask) {
    flags & preference == preference
  }

  predicate SingleBit(m: Mask) {
    m != 0 && m & (m - 1) == 0
  }

  /** The toggle rule of ToggleArgument, ToggleConfig and ToggleProjectGeneration: clear the preference's bits when all are set, otherwise set them all. */
  function Toggle(flags: Mask, preference: Mask): Mask {
    if HasFlag(flags, preference) then flags ^ preference else flags | preference
  }

  /** The bits outside the preference are never touched. */
  lemma ToggleKeepsOtherBits(flags: Mask, preference: Mask)
    ensures Toggle(flags, preference) & !preference == flags & !preference
  {
  }

  /** A preference that is wholly on is switched wholly off. */
  lemma ToggleClears(flags: Mask, preference: Mask)
    requires HasFlag(flags, preference)
    ensures Toggle(flags, preference) & preference == 0
  {
  }

  /** Any other preference is switched wholly on. */
  lemma ToggleSets(flags: Mask, preference: Mask)
    requires !HasFlag(flags, preference)
    ensures HasFlag(Toggle(flags, preference), preference)
  {
  }

  /** Toggling a preference that is wholly on or wholly off twice gives the flags back. */
  lemma ToggleTwice(flags: Mask, preference: Mask)
    requires HasFlag(flags, preference) || flags & preference == 0
    ensures Toggle(Toggle(flags, preference), preference) == flags
  {
    if preference == 0 {
      assert flags ^ 0 == flags;
    } else if HasFlag(flags, preference) {
      ToggleTwiceWhenSet(flags, preference);
    } else {
      ToggleTwiceWhenClear(flags, preference);
    }
  }

  /** A single bit is always wholly on or wholly off, so toggling it twice is the identity. */
  lemma ToggleBitTwice(flags: Mask, bit: Mask)
    requires SingleBit(bit)
    ensures Toggle(Toggle(flags, bit), bit) == flags
  {
    SingleBitAllOrNothing(flags, bit);
    ToggleTwice(flags, bit);
  }

  lemma SingleBitAllOrNothing(flags: Mask, bit: Mask)
    requires SingleBit(bit)
    ensures HasFlag(flags, bit) || flags & bit == 0
  {
  }

  lemma ToggleTwiceWhenSet(f: Mask, p: Mask)
    requires HasFlag(f, p) && p != 0
    ensures Toggle(Toggle(f, p), p) == f
  {
    var t := f ^ p;
    assert Toggle(f, p) == t;
    assert Toggle(t, p) == f by { XorClears(f, p); XorThenOr(f, p); }
  }

  lemma ToggleTwiceWhenClear(f: Mask, p: Mask)
    requires f & p == 0 && p != 0
    ensures Toggle(Toggle(f, p), p) == f
  {
    var t := f | p;
    assert Toggle(f, p) == t by { ClearIsNotSet(f, p); }
    assert Toggle(t, p) == f by { OrSets(f, p); OrThenXor(f, p); }
  }

  lemma XorClears(f: Mask, p: Mask)
    requires f & p == p && p != 0
    ensures (f ^ p) & p != p
  {
  }

  lemma XorThenOr(f: Mask, p: Mask)
    requires f & p == p
    ensures (f ^ p) | p == f
  {
  }

  lemma ClearIsNotSet(f: Mask, p: Mask)
    requires f & p == 0 && p != 0
    ensures !HasFlag(f, p)
  {
  }

  lemma OrSets(f: Mask, p: Mask)
    ensures HasFlag(f | p, p)
  {
  }

  lemma OrThenXor(f: Mask, p: Mask)
    requires f & p == 0
    ensures (f | p) ^ p == f
  {
  }

  /** A preference of several bits, partly on, ends up wholly off after two toggles. */
  lemma TogglePartialTwice()
    ensures Toggle(Toggle(Setup, Argument | Setup), Argument | Setup) == ArgumentNone
  {
  }

  class FlagHandler {
    var argumentFlag: Mask
    var configFlag: Mask
    const prefs: Preferences.PreferenceStore

    /** Both flags start from the stored values, 0 when nothing is stored. */
    constructor (prefs: Preferences.PreferenceStore)
      ensures this.prefs == prefs
      ensures argumentFlag == prefs.GetInt(ArgumentFlagKey, ArgumentNone)
      ensures configFlag == prefs.GetInt(ConfigFlagKey, ConfigNone)
      ensures ArgumentInSync() && ConfigInSync()
    {
      this.prefs := prefs;
      argumentFlag := prefs.GetInt(ArgumentFlagKey, ArgumentNone);
      configFlag := prefs.GetInt(ConfigFlagKey, ConfigNone);
    }

    /** The in-memory argument flag is what the store holds. */
    predicate ArgumentInSync()
      reads this, prefs
    {
      argumentFlag == prefs.GetInt(ArgumentFlagKey, ArgumentNone)
    }

    predicate ConfigInSync()
      reads this, prefs
    {
      configFlag == prefs.GetInt(ConfigFlagKey, ConfigNone)
    }

    /** The ArgumentFlag setter as written: it stores the value and never assigns the field. */
    method SetArgumentFlag(value: Mask)
      modifies prefs
      ensures prefs.ints == old(prefs.ints)[ArgumentFlagKey := value]
      ensures prefs.strings == old(prefs.strings)
    {
      prefs.SetInt(ArgumentFlagKey, value);
    }

    method SetConfigFlag(value: Mask)
      modifies this, prefs
      ensures prefs.ints == old(prefs.ints)[ConfigFlagKey := value]
      ensures prefs.strings == old(prefs.strings)
      ensures configFlag == value && argumentFlag == old(argumentFlag)
      ensures ConfigInSync()
    {
      prefs.SetInt(ConfigFlagKey, value);
      configFlag := value;
    }

    /** As written: the toggled value reaches the store, the in-memory flag stays where it was. */
    method ToggleArgument(preference: Mask)
      modifies prefs
      ensures prefs.ints == old(prefs.ints)[ArgumentFlagKey := Toggle(old(argumentFlag), preference)]
      ensures prefs.strings == old(prefs.strings)
      ensures argumentFlag == old(argumentFlag)
    {
      SetArgumentFlag(Toggle(argumentFlag, preference));
    }

    /** The setter as intended: store and field change together. */
    method SetArgumentFlagCorrected(value: Mask)
      modifies this, prefs
      ensures prefs.ints == old(prefs.ints)[ArgumentFlagKey := value]
      ensures prefs.strings == old(prefs.strings)
      ensures argumentFlag == value && configFlag == old(configFlag)
      ensures ArgumentInSync()
    {
      prefs.SetInt(ArgumentFlagKey, value);
      argumentFlag := value;
    }

    method ToggleArgumentCorrected(preference: Mask)
      modifies this, prefs
      ensures argumentFlag == Toggle(old(argumentFlag), preference) && configFlag == old(configFlag)
      ensures prefs.ints == old(prefs.ints)[ArgumentFlagKey := argumentFlag]
      ensures prefs.strings == old(prefs.strings)
      ensures ArgumentInSync()
    {
      SetArgumentFlagCorrected(Toggle(argumentFlag, preference));
    }

    method ToggleConfig(preference: Mask)
      modifies this, prefs
      ensures configFlag == Toggle(old(configFlag), preference) && argumentFlag == old(argumentFlag)
      ensures prefs.ints == old(prefs.ints)[ConfigFlagKey := configFlag]
      ensures prefs.strings == old(prefs.strings)
      ensures ConfigInSync()
    {
      SetConfigFlag(Toggle(configFlag, preference));
    }
  }

  /**
   * With nothing stored, one ToggleArgument(Argument) stores 1 while the
   * handler still reports 0, and a second toggle stores 1 again instead of
   * turning the flag back off.
   */
  method ArgumentToggleIsLost() returns (inMemory: Mask, storedAfterOne: Mask, storedAfterTwo: Mask)
    ensures inMemory == ArgumentNone
    ensures storedAfterOne == Argument && storedAfterTwo == Argument
  {
    var prefs := new Preferences.PreferenceStore(map[], map[]);
    var handler := new FlagHandler(prefs);
    handler.ToggleArgument(Argument);
    storedAfterOne := prefs.GetInt(ArgumentFlagKey, ArgumentNone);
    handler.ToggleArgument(Argument);
    storedAfterTwo := prefs.GetInt(ArgumentFlagKey, ArgumentNone);
    inMemory := handler.argumentFlag;
  }

  /** With the corrected setter, two toggles of Argument restore both the field and the store. */
  method ArgumentToggleCorrectedRestores() returns (inMemory: Mask, stored: Mask)
    ensures inMemory == ArgumentNone && stored == ArgumentNone
  {
    var prefs := new Preferences.PreferenceStore(map[], map[]);
    var handler := new FlagHandler(prefs);
    handler.ToggleArgumentCorrected(Argument);
    handler.ToggleArgumentCorrected(Argument);
    inMemory := handler.argumentFlag;
    stored := prefs.GetInt(ArgumentFlagKey, ArgumentNone);
  }
}
