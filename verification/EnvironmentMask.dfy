/** The 13-bit failure mask of `EnvironmentWorker` and what `EnvironmentObservation` reads out of it. */
module EnvironmentMask {

  /** The thirteen flags, bit 0 first. */
  datatype Flag =
    | SystemRootMissing | WindirMissing | TempMissing | TmpMissing | PathMissing
    | UnexpectedVariable | PrivateTempMismatch | TrustedPathMismatch
    | ProxyPresent | ToolchainPresent | CredentialPresent | CompatibilityPresent
    | WindirMismatch
  {
    function Bit(): bv32 {
      match this
      case SystemRootMissing => 1 << 0
      case WindirMissing => 1 << 1
      case TempMissing => 1 << 2
      case TmpMissing => 1 << 3
      case PathMissing => 1 << 4
      case UnexpectedVariable => 1 << 5
      case PrivateTempMismatch => 1 << 6
      case TrustedPathMismatch => 1 << 7
      case ProxyPresent => 1 << 8
      case ToolchainPresent => 1 << 9
      case CredentialPresent => 1 << 10
      case CompatibilityPresent => 1 << 11
      case WindirMismatch => 1 << 12
    }
  }

  /** None of `bits` is set. */
  predicate Clear(mask: bv32, bits: bv32) { mask & bits == 0 }

  /** `~0x1fffu`: a mask with any of these is no report of this worker. */
  const INVALID: bv32 := !0x1fff

  /** The mask raises exactly these flags, and no bit beyond the thirteen. */
  ghost predicate States(m: bv32, raised: set<Flag>) {
    && (forall flag: Flag {:trigger Clear(m, flag.Bit())} :: Clear(m, flag.Bit()) <==> flag !in raised)
    && Clear(m, INVALID)
  }

  datatype Observation = Observation(
    systemRootPresent: bool, windirPresent: bool, tempPresent: bool, tmpPresent: bool, pathPresent: bool,
    exactAllowlist: bool, privateTemp: bool, trustedWindowsPath: bool,
    proxyAbsent: bool, toolchainAbsent: bool, credentialAbsent: bool, compatibilityAbsent: bool,
    windirMatches: bool)

  /** `EnvironmentObservation.FromExitCode`. */
  function FromExitCode(mask: bv32): Observation {
    Observation(Clear(mask, 1 << 0), Clear(mask, 1 << 1), Clear(mask, 1 << 2), Clear(mask, 1 << 3),
                Clear(mask, 1 << 4), Clear(mask, 1 << 5),
                Clear(mask, (1 << 2) | (1 << 3) | (1 << 6)),
                Clear(mask, (1 << 0) | (1 << 4) | (1 << 7)),
                Clear(mask, 1 << 8), Clear(mask, 1 << 9), Clear(mask, 1 << 10), Clear(mask, 1 << 11),
                Clear(mask, (1 << 0) | (1 << 1) | (1 << 12)))
  }

  lemma AndDistributes(x: bv32, a: bv32, b: bv32)
    ensures x & (a | b) == (x & a) | (x & b)
    ensures (a | b) & x == (a & x) | (b & x)
  {}

  lemma OrIsZero(a: bv32, b: bv32)
    ensures a | b == 0 <==> a == 0 && b == 0
  {}

  lemma ClearOr(x: bv32, y: bv32, bits: bv32)
    ensures Clear(x | y, bits) <==> Clear(x, bits) && Clear(y, bits)
  {
    AndDistributes(bits, x, y);
    OrIsZero(x & bits, y & bits);
  }

  lemma BitsAreDistinct(f: Flag, g: Flag)
    ensures Clear(f.Bit(), g.Bit()) <==> f != g
    ensures Clear(f.Bit(), INVALID)
  {}

  lemma AddedReads(m: bv32, flag: Flag, g: Flag)
    ensures Clear(m | flag.Bit(), g.Bit()) <==> Clear(m, g.Bit()) && g != flag
    ensures Clear(m | flag.Bit(), INVALID) <==> Clear(m, INVALID)
  {
    ClearOr(m, flag.Bit(), g.Bit());
    ClearOr(m, flag.Bit(), INVALID);
    BitsAreDistinct(flag, g);
  }

  /** `failures |= flag;` */
  lemma Adding(m: bv32, raised: set<Flag>, flag: Flag)
    requires States(m, raised)
    ensures States(m | flag.Bit(), raised + {flag})
  {
    forall g: Flag ensures Clear(m | flag.Bit(), g.Bit()) <==> g !in raised + {flag} {
      AddedReads(m, flag, g);
    }
    AddedReads(m, flag, flag);
  }

  lemma NoFlags()
    ensures States(0, {})
  {}

  lemma OnlyUnexpected()
    ensures States(UnexpectedVariable.Bit(), {UnexpectedVariable})
  {
    NoFlags();
    Adding(0, {}, UnexpectedVariable);
    assert 0 | UnexpectedVariable.Bit() == UnexpectedVariable.Bit();
    assert {} + {UnexpectedVariable} == {UnexpectedVariable};
  }

  /** The mask is zero exactly when it raises nothing. */
  lemma ZeroIsClean(m: bv32, raised: set<Flag>)
    requires States(m, raised)
    ensures m == 0 <==> raised == {}
  {
    if m == 0 {
      forall flag: Flag ensures flag !in raised { assert Clear(m, flag.Bit()); }
    } else if raised == {} {
      assert Clear(m, SystemRootMissing.Bit()) && Clear(m, WindirMissing.Bit()) && Clear(m, TempMissing.Bit());
      assert Clear(m, TmpMissing.Bit()) && Clear(m, PathMissing.Bit()) && Clear(m, UnexpectedVariable.Bit());
      assert Clear(m, PrivateTempMismatch.Bit()) && Clear(m, TrustedPathMismatch.Bit());
      assert Clear(m, ProxyPresent.Bit()) && Clear(m, ToolchainPresent.Bit()) && Clear(m, CredentialPresent.Bit());
      assert Clear(m, CompatibilityPresent.Bit()) && Clear(m, WindirMismatch.Bit());
      AllClear(m);
      assert false;
    }
  }

  lemma AllClear(m: bv32)
    requires Clear(m, 1 << 0) && Clear(m, 1 << 1) && Clear(m, 1 << 2) && Clear(m, 1 << 3) && Clear(m, 1 << 4)
    requires Clear(m, 1 << 5) && Clear(m, 1 << 6) && Clear(m, 1 << 7) && Clear(m, 1 << 8) && Clear(m, 1 << 9)
    requires Clear(m, 1 << 10) && Clear(m, 1 << 11) && Clear(m, 1 << 12) && Clear(m, INVALID)
    ensures m == 0
  {}

  /** The direct reading of a set of raised flags. */
  ghost function Observed(raised: set<Flag>): Observation {
    Observation(SystemRootMissing !in raised, WindirMissing !in raised, TempMissing !in raised,
                TmpMissing !in raised, PathMissing !in raised, UnexpectedVariable !in raised,
                raised !! {TempMissing, TmpMissing, PrivateTempMismatch},
                raised !! {SystemRootMissing, PathMissing, TrustedPathMismatch},
                ProxyPresent !in raised, ToolchainPresent !in raised, CredentialPresent !in raised,
                CompatibilityPresent !in raised,
                raised !! {SystemRootMissing, WindirMissing, WindirMismatch})
  }

  lemma ThreeBits(m: bv32)
    ensures Clear(m, (1 << 2) | (1 << 3) | (1 << 6)) <==> Clear(m, 1 << 2) && Clear(m, 1 << 3) && Clear(m, 1 << 6)
    ensures Clear(m, (1 << 0) | (1 << 4) | (1 << 7)) <==> Clear(m, 1 << 0) && Clear(m, 1 << 4) && Clear(m, 1 << 7)
    ensures Clear(m, (1 << 0) | (1 << 1) | (1 << 12)) <==> Clear(m, 1 << 0) && Clear(m, 1 << 1) && Clear(m, 1 << 12)
  {}

  lemma ReadingGroups(m: bv32, raised: set<Flag>)
    requires States(m, raised)
    ensures Clear(m, (1 << 2) | (1 << 3) | (1 << 6)) <==> raised !! {TempMissing, TmpMissing, PrivateTempMismatch}
    ensures Clear(m, (1 << 0) | (1 << 4) | (1 << 7)) <==> raised !! {SystemRootMissing, PathMissing, TrustedPathMismatch}
    ensures Clear(m, (1 << 0) | (1 << 1) | (1 << 12)) <==> raised !! {SystemRootMissing, WindirMissing, WindirMismatch}
  {
    ThreeBits(m);
    assert Clear(m, SystemRootMissing.Bit()) <==> SystemRootMissing !in raised;
    assert Clear(m, WindirMissing.Bit()) <==> WindirMissing !in raised;
    assert Clear(m, TempMissing.Bit()) <==> TempMissing !in raised;
    assert Clear(m, TmpMissing.Bit()) <==> TmpMissing !in raised;
    assert Clear(m, PathMissing.Bit()) <==> PathMissing !in raised;
    assert Clear(m, PrivateTempMismatch.Bit()) <==> PrivateTempMismatch !in raised;
    assert Clear(m, TrustedPathMismatch.Bit()) <==> TrustedPathMismatch !in raised;
    assert Clear(m, WindirMismatch.Bit()) <==> WindirMismatch !in raised;
  }

  lemma ReadingSingles(m: bv32, raised: set<Flag>)
    requires States(m, raised)
    ensures Clear(m, 1 << 0) <==> SystemRootMissing !in raised
    ensures Clear(m, 1 << 1) <==> WindirMissing !in raised
    ensures Clear(m, 1 << 2) <==> TempMissing !in raised
    ensures Clear(m, 1 << 3) <==> TmpMissing !in raised
    ensures Clear(m, 1 << 4) <==> PathMissing !in raised
    ensures Clear(m, 1 << 5) <==> UnexpectedVariable !in raised
    ensures Clear(m, 1 << 8) <==> ProxyPresent !in raised
    ensures Clear(m, 1 << 9) <==> ToolchainPresent !in raised
    ensures Clear(m, 1 << 10) <==> CredentialPresent !in raised
    ensures Clear(m, 1 << 11) <==> CompatibilityPresent !in raised
  {
    assert Clear(m, SystemRootMissing.Bit()) <==> SystemRootMissing !in raised;
    assert Clear(m, WindirMissing.Bit()) <==> WindirMissing !in raised;
    assert Clear(m, TempMissing.Bit()) <==> TempMissing !in raised;
    assert Clear(m, TmpMissing.Bit()) <==> TmpMissing !in raised;
    assert Clear(m, PathMissing.Bit()) <==> PathMissing !in raised;
    assert Clear(m, UnexpectedVariable.Bit()) <==> UnexpectedVariable !in raised;
    assert Clear(m, ProxyPresent.Bit()) <==> ProxyPresent !in raised;
    assert Clear(m, ToolchainPresent.Bit()) <==> ToolchainPresent !in raised;
    assert Clear(m, CredentialPresent.Bit()) <==> CredentialPresent !in raised;
    assert Clear(m, CompatibilityPresent.Bit()) <==> CompatibilityPresent !in raised;
  }

  /** Every bit reads back, alone and in the three groups the observation uses. */
  lemma Reading(m: bv32, raised: set<Flag>)
    requires States(m, raised)
    ensures FromExitCode(m) == Observed(raised)
  {
    ReadingGroups(m, raised);
    ReadingSingles(m, raised);
  }
}
