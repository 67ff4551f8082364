/** The deterministic part of `generateFingerprint`: each attribute of the simulated
    browser is drawn from a fixed pool by an index read from eight hex digits of the
    wallet's seed. The seed itself (a SHA-256 digest of the lower-cased address) and the
    MD5 canvas and WebGL hashes are outside the model; the seed is the input. */
module Fingerprint {
  import opened Text

  /** The length of a SHA-256 digest in hex. */
  const SeedLength: nat := 64

  const UserAgents: seq<string> := [
    "Mozilla/5.0 (Windows NT 10.0; Win64; x64) AppleWebKit/537.36 (KHTML, like Gecko) Chrome/122.0.0.0 Safari/537.36",
    "Mozilla/5.0 (Windows NT 10.0; Win64; x64) AppleWebKit/537.36 (KHTML, like Gecko) Chrome/121.0.0.0 Safari/537.36",
    "Mozilla/5.0 (Windows NT 10.0; Win64; x64) AppleWebKit/537.36 (KHTML, like Gecko) Chrome/120.0.0.0 Safari/537.36",
    "Mozilla/5.0 (Windows NT 10.0; Win64; x64) AppleWebKit/537.36 (KHTML, like Gecko) Chrome/122.0.0.0 Safari/537.36 Edg/122.0.0.0",
    "Mozilla/5.0 (Macintosh; Intel Mac OS X 10_15_7) AppleWebKit/537.36 (KHTML, like Gecko) Chrome/122.0.0.0 Safari/537.36",
    "Mozilla/5.0 (Macintosh; Intel Mac OS X 10_15_7) AppleWebKit/537.36 (KHTML, like Gecko) Chrome/121.0.0.0 Safari/537.36",
    "Mozilla/5.0 (X11; Linux x86_64) AppleWebKit/537.36 (KHTML, like Gecko) Chrome/122.0.0.0 Safari/537.36",
    "Mozilla/5.0 (X11; Linux x86_64) AppleWebKit/537.36 (KHTML, like Gecko) Chrome/121.0.0.0 Safari/537.36"
  ]
  const Resolutions: seq<string> := ["1920x1080", "2560x1440", "1366x768", "1440x900", "1536x864"]
  /** Minutes from UTC, as `getTimezoneOffset` reports them. */
  const Timezones: seq<int> := [-480, -420, -360, -300, -240, 0, 60, 120, 420, 480, 540]
  const Concurrencies: seq<nat> := [4, 8, 12, 16]
  const Memories: seq<nat> := [4, 8, 16, 32]

  datatype Platform = Windows | Macintosh | Linux

  /** The fields of the fingerprint that the seed decides, plus its constants. */
  datatype Fingerprint = Fingerprint(
    userAgent: string,
    platform: Platform,
    secChUaPlatform: string,
    screenResolution: string,
    timezoneOffset: int,
    language: string,
    colorDepth: nat,
    hardwareConcurrency: nat,
    deviceMemory: nat)

  predicate IsHexDigit(c: char) {
    '0' <= c <= '9' || 'a' <= c <= 'f' || 'A' <= c <= 'F'
  }

  predicate IsHex(s: string) {
    forall i :: 0 <= i < |s| ==> IsHexDigit(s[i])
  }

  function HexDigitValue(c: char): (v: nat)
    requires IsHexDigit(c)
    ensures v < 16
  {
    if '0' <= c <= '9' then c as int - '0' as int
    else if 'a' <= c <= 'f' then c as int - 'a' as int + 10
    else c as int - 'A' as int + 10
  }

  function Pow16(n: nat): (p: nat)
    ensures p >= 1
  {
    if n == 0 then 1 else 16 * Pow16(n - 1)
  }

  /** `parseInt(s, 16)` on a string of hex digits. */
  function HexValue(s: string): (v: nat)
    requires IsHex(s)
    ensures v < Pow16(|s|)
    decreases |s|
  {
    if s == [] then 0 else HexValue(s[..|s| - 1]) * 16 + HexDigitValue(s[|s| - 1])
  }

  /** The index `parseInt(seed.substring(8 * k, 8 * k + 8), 16) % n`. */
  function SlotIndex(seed: string, k: nat, n: nat): (i: nat)
    requires 8 * k + 8 <= |seed| && IsHex(seed) && n > 0
    ensures i < n
  {
    HexValue(seed[8 * k .. 8 * k + 8]) % n
  }

  /** `includes('Macintosh')`, then `includes('Linux')`, else Windows. */
  function PlatformOf(userAgent: string): Platform {
    if Contains(userAgent, "Macintosh") then Macintosh
    else if Contains(userAgent, "Linux") then Linux
    else Windows
  }

  /** The `sec-ch-ua-platform` hint of each platform. */
  function HintPlatform(p: Platform): string {
    match p
    case Windows => "\"Windows\""
    case Macintosh => "\"macOS\""
    case Linux => "\"Linux\""
  }

  function Generate(seed: string): (f: Fingerprint)
    requires |seed| == SeedLength && IsHex(seed)
    ensures f.userAgent in UserAgents && f.screenResolution in Resolutions
    ensures f.timezoneOffset in Timezones
    ensures f.hardwareConcurrency in Concurrencies && f.deviceMemory in Memories
    ensures f.platform == PlatformOf(f.userAgent) && f.secChUaPlatform == HintPlatform(f.platform)
  {
    var userAgent := UserAgents[SlotIndex(seed, 0, |UserAgents|)];
    var platform := PlatformOf(userAgent);
    Fingerprint(
      userAgent,
      platform,
      HintPlatform(platform),
      Resolutions[SlotIndex(seed, 1, |Resolutions|)],
      Timezones[SlotIndex(seed, 2, |Timezones|)],
      "en-US",
      24,
      Concurrencies[SlotIndex(seed, 3, |Concurrencies|)],
      Memories[SlotIndex(seed, 4, |Memories|)])
  }

  /** Each attribute depends only on its own eight hex digits of the seed: two seeds that
      agree there give the same attribute. */
  lemma {:induction false} SlotsIndependent(a: string, b: string)
    requires |a| == SeedLength && IsHex(a) && |b| == SeedLength && IsHex(b)
    ensures a[0..8] == b[0..8] ==>
      Generate(a).userAgent == Generate(b).userAgent && Generate(a).platform == Generate(b).platform
    ensures a[8..16] == b[8..16] ==> Generate(a).screenResolution == Generate(b).screenResolution
    ensures a[16..24] == b[16..24] ==> Generate(a).timezoneOffset == Generate(b).timezoneOffset
    ensures a[24..32] == b[24..32] ==> Generate(a).hardwareConcurrency == Generate(b).hardwareConcurrency
    ensures a[32..40] == b[32..40] ==> Generate(a).deviceMemory == Generate(b).deviceMemory
  {
  }

  /** The hex digits past the fortieth decide nothing. */
  lemma {:induction false} TailIgnored(a: string, b: string)
    requires |a| == SeedLength && IsHex(a) && |b| == SeedLength && IsHex(b)
    requires a[..40] == b[..40]
    ensures Generate(a) == Generate(b)
  {
    assert a[0..8] == a[..40][0..8] && b[0..8] == b[..40][0..8];
    assert a[8..16] == a[..40][8..16] && b[8..16] == b[..40][8..16];
    assert a[16..24] == a[..40][16..24] && b[16..24] == b[..40][16..24];
    assert a[24..32] == a[..40][24..32] && b[24..32] == b[..40][24..32];
    assert a[32..40] == a[..40][32..40] && b[32..40] == b[..40][32..40];
  }
}
