/** SettingsHelper.ToSettingValue (logics/managers/SettingsManager.cs): the
    mapping from the byte enums of the graphic settings to the integers the
    engine's project settings expect. ApplySettings itself only writes those
    integers into the engine and is not part of this model. */
module Settings {
  import opened Utilities

  /** The declared members of the byte enums, in declaration order. */
  datatype FullScreenMode = Windowed | Fullscreen | Borderless
  datatype AnisotropicFiltering = AfDisabled | Af2 | Af4 | Af8 | Af16
  datatype SSAOQuality = SsaoVeryLow | SsaoLow | SsaoMedium | SsaoHigh | SsaoUltra
  datatype SubsurfaceScatteringQuality = SssDisabled | SssLow | SssMedium | SssHigh
  datatype AntialiasingQuality = AaDisabled | Aa2 | Aa4 | Aa8
  datatype SoftShadowQuality = SsDisabled | SsVeryLow | SsLow | SsMedium | SsHigh | SsUltra

  /** The byte each declared member is stored as (its ordinal). */
  function FullScreenModeByte(m: FullScreenMode): Byte {
    match m
    case Windowed => 0
    case Fullscreen => 1
    case Borderless => 2
  }

  function AnisotropicFilteringByte(f: AnisotropicFiltering): Byte {
    match f
    case AfDisabled => 0
    case Af2 => 1
    case Af4 => 2
    case Af8 => 3
    case Af16 => 4
  }

  function SSAOQualityByte(q: SSAOQuality): Byte {
    match q
    case SsaoVeryLow => 0
    case SsaoLow => 1
    case SsaoMedium => 2
    case SsaoHigh => 3
    case SsaoUltra => 4
  }

  function SubsurfaceScatteringQualityByte(q: SubsurfaceScatteringQuality): Byte {
    match q
    case SssDisabled => 0
    case SssLow => 1
    case SssMedium => 2
    case SssHigh => 3
  }

  function AntialiasingQualityByte(q: AntialiasingQuality): Byte {
    match q
    case AaDisabled => 0
    case Aa2 => 1
    case Aa4 => 2
    case Aa8 => 3
  }

  function SoftShadowQualityByte(q: SoftShadowQuality): Byte {
    match q
    case SsDisabled => 0
    case SsVeryLow => 1
    case SsLow => 2
    case SsMedium => 3
    case SsHigh => 4
    case SsUltra => 5
  }

  /** Window mode setting: Windowed is 0, Fullscreen and Borderless are both the
      engine's fullscreen value 3, any undeclared byte falls back to 0. */
  function FullScreenModeValue(b: Byte): (r: int)
    ensures r == 0 || r == 3
    ensures r == 3 <==> b == 1 || b == 2
  {
    match b
    case 0 => 0
    case 1 => 3
    case 2 => 3
    case _ => 0
  }

  /** The common shape of the other five mappings: a byte at most the threshold
      is passed through, anything larger becomes 0. */
  function Clamped(b: Byte, threshold: nat): (r: int)
    ensures 0 <= r <= threshold
    ensures r == b || r == 0
    ensures b <= threshold ==> r == b
  {
    if b > threshold then 0 else b
  }

  function AnisotropicFilteringValue(b: Byte): (r: int)
    ensures 0 <= r <= 4 && (b <= 4 ==> r == b) && (b > 4 ==> r == 0)
  {
    Clamped(b, 4)
  }

  function SSAOQualityValue(b: Byte): (r: int)
    ensures 0 <= r <= 5 && (b <= 5 ==> r == b) && (b > 5 ==> r == 0)
  {
    Clamped(b, 5)
  }

  function SubsurfaceScatteringQualityValue(b: Byte): (r: int)
    ensures 0 <= r <= 4 && (b <= 4 ==> r == b) && (b > 4 ==> r == 0)
  {
    Clamped(b, 4)
  }

  function AntialiasingQualityValue(b: Byte): (r: int)
    ensures 0 <= r <= 4 && (b <= 4 ==> r == b) && (b > 4 ==> r == 0)
  {
    Clamped(b, 4)
  }

  function SoftShadowQualityValue(b: Byte): (r: int)
    ensures 0 <= r <= 6 && (b <= 6 ==> r == b) && (b > 6 ==> r == 0)
  {
    Clamped(b, 6)
  }

  /** Every declared member of the five quality enums maps to its own ordinal:
      the thresholds never cut off a declared member. */
  lemma DeclaredMembersMapToOrdinal(
    f: AnisotropicFiltering, s: SSAOQuality, ss: SubsurfaceScatteringQuality,
    a: AntialiasingQuality, sh: SoftShadowQuality)
    ensures AnisotropicFilteringValue(AnisotropicFilteringByte(f)) == AnisotropicFilteringByte(f)
    ensures SSAOQualityValue(SSAOQualityByte(s)) == SSAOQualityByte(s)
    ensures SubsurfaceScatteringQualityValue(SubsurfaceScatteringQualityByte(ss)) == SubsurfaceScatteringQualityByte(ss)
    ensures AntialiasingQualityValue(AntialiasingQualityByte(a)) == AntialiasingQualityByte(a)
    ensures SoftShadowQualityValue(SoftShadowQualityByte(sh)) == SoftShadowQualityByte(sh)
  {
  }

  /** Declared window modes: Windowed maps to 0, the two full-screen modes to 3. */
  lemma DeclaredFullScreenModes(m: FullScreenMode)
    ensures FullScreenModeValue(FullScreenModeByte(m)) == if m == Windowed then 0 else 3
  {
  }
}
