/**
 * The session events the session-management layer publishes: weather, track, duration,
 * time left and the four lifecycle events. Every event carries the session id, a
 * timestamp (DateTime ticks, supplied by the caller) and the header's session time (a raw
 * float pattern). Equality and hash codes follow each event class's own overrides.
 */
module Events {
  import opened Wrappers

  /** The .NET TimeSpan resolution: ticks of 100 ns. */
  const TicksPerSecond: nat := 10_000_000

  /** TimeSpan.FromSeconds for a whole number of seconds, as ticks. */
  function FromSeconds(seconds: nat): (ticks: nat)
    ensures ticks / TicksPerSecond == seconds && ticks % TicksPerSecond == 0
  {
    seconds * TicksPerSecond
  }

  /** A published event; the constructor is the event's class. */
  datatype Event =
    | WeatherInfo(weather: nat, trackTemperature: int, airTemperature: int, sessionId: nat, timeStamp: nat, sessionTime: nat)
    | TrackInfo(track: int, length: nat, sessionId: nat, timeStamp: nat, sessionTime: nat)
    | SessionDuration(duration: nat, sessionId: nat, timeStamp: nat, sessionTime: nat)
    | SessionTimeLeft(timeLeft: nat, sessionId: nat, timeStamp: nat, sessionTime: nat)
    | SessionStart(sessionId: nat, timeStamp: nat, sessionTime: nat)
    | SessionEnd(sessionId: nat, timeStamp: nat, sessionTime: nat)
    | SessionPause(sessionId: nat, timeStamp: nat, sessionTime: nat)
    | SessionResume(sessionId: nat, timeStamp: nat, sessionTime: nat)
  {
    /** The SessionLifecycle subclasses. */
    predicate IsLifecycle() {
      SessionStart? || SessionEnd? || SessionPause? || SessionResume?
    }
  }

  /**
   * Equals(object): an event of another class is never equal; WeatherInfo compares its
   * three readings only, TrackInfo its track, length and session id, SessionDuration and
   * SessionTimeLeft their span and session id, and a lifecycle event its session id.
   * Timestamps and session times are never compared.
   */
  predicate Same(a: Event, b: Event) {
    match (a, b)
    case (WeatherInfo(w, tt, at, _, _, _), WeatherInfo(w', tt', at', _, _, _)) => w == w' && tt == tt' && at == at'
    case (TrackInfo(t, l, id, _, _), TrackInfo(t', l', id', _, _)) => t == t' && l == l' && id == id'
    case (SessionDuration(d, id, _, _), SessionDuration(d', id', _, _)) => d == d' && id == id'
    case (SessionTimeLeft(d, id, _, _), SessionTimeLeft(d', id', _, _)) => d == d' && id == id'
    case (SessionStart(id, _, _), SessionStart(id', _, _)) => id == id'
    case (SessionEnd(id, _, _), SessionEnd(id', _, _)) => id == id'
    case (SessionPause(id, _, _), SessionPause(id', _, _)) => id == id'
    case (SessionResume(id, _, _), SessionResume(id', _, _)) => id == id'
    case _ => false
  }

  /** Same is an equivalence, as Equals overrides must be: the distinct-until-changed filters rely on it. */
  lemma SameIsEquivalence(a: Event, b: Event, c: Event)
    ensures Same(a, a)
    ensures Same(a, b) ==> Same(b, a)
    ensures Same(a, b) && Same(b, c) ==> Same(a, c)
  {
  }

  /** Only events of one class can be equal; a pause never equals a resume. */
  lemma SameClass(a: Event, b: Event)
    requires Same(a, b)
    ensures a.WeatherInfo? == b.WeatherInfo? && a.TrackInfo? == b.TrackInfo?
    ensures a.SessionDuration? == b.SessionDuration? && a.SessionTimeLeft? == b.SessionTimeLeft?
    ensures a.SessionStart? == b.SessionStart? && a.SessionEnd? == b.SessionEnd?
    ensures a.SessionPause? == b.SessionPause? && a.SessionResume? == b.SessionResume?
    ensures !a.WeatherInfo? ==> a.sessionId == b.sessionId
  {
  }

  /** An unchecked narrowing to int: the low 32 bits in two's complement. */
  function Low32(v: int): bv32 {
    (v % 0x1_0000_0000) as bv32
  }

  /** long and ulong GetHashCode: the low word xor the high word (the shift is arithmetic for long). */
  function Int64Hash(v: int): bv32 {
    Low32(v) ^ Low32(v / 0x1_0000_0000)
  }

  /** One step of the generated hash combiner: (hash * 397) ^ next, wrapping. */
  function Mix(hash: bv32, next: bv32): bv32 {
    (hash * 397) ^ next
  }

  /**
   * GetHashCode: the combiner over the compared fields only. Enum, sbyte and ushort
   * fields hash to their own value sign-extended, TimeSpan to the hash of its ticks.
   */
  function Hash(e: Event): bv32 {
    match e
    case WeatherInfo(w, tt, at, _, _, _) => Mix(Mix(Low32(w), Low32(tt)), Low32(at))
    case TrackInfo(t, l, id, _, _) => Mix(Mix(Int64Hash(id), Low32(t)), Low32(l))
    case SessionDuration(d, id, _, _) => Mix(Int64Hash(id), Int64Hash(d))
    case SessionTimeLeft(d, id, _, _) => Mix(Int64Hash(id), Int64Hash(d))
    case SessionStart(id, _, _) => Int64Hash(id)
    case SessionEnd(id, _, _) => Int64Hash(id)
    case SessionPause(id, _, _) => Int64Hash(id)
    case SessionResume(id, _, _) => Int64Hash(id)
  }

  /** Equal events have equal hash codes. */
  lemma SameHash(a: Event, b: Event)
    requires Same(a, b)
    ensures Hash(a) == Hash(b)
  {
  }

  /*
   * The enumerations below document the names of the weather and track ordinals. The
   * events keep the raw ordinal, as the C# cast of a packet byte to an enumeration does
   * without checking it, so no other member depends on them.
   */

  /** The Weather enumeration, ordinals 0 to 5. */
  datatype Weather = Clear | LightlyClouded | Overcast | LightRain | HeavyRain | Storm

  /** The enumerators in ordinal order. */
  const Weathers: seq<Weather> := [Clear, LightlyClouded, Overcast, LightRain, HeavyRain, Storm]

  /** A weather byte as a named enumerator, when it names one. */
  function WeatherOf(v: nat): (w: Option<Weather>)
    ensures w.Some? <==> v < 6
  {
    if v < |Weathers| then Some(Weathers[v]) else None
  }

  /** The ordinal of an enumerator. */
  function WeatherOrdinal(w: Weather): nat {
    match w
    case Clear => 0
    case LightlyClouded => 1
    case Overcast => 2
    case LightRain => 3
    case HeavyRain => 4
    case Storm => 5
  }

  /** The declared ordinals are exactly 0 .. 5, one per enumerator. */
  lemma WeatherOrdinals(w: Weather, v: nat)
    ensures WeatherOf(WeatherOrdinal(w)) == Some(w)
    ensures WeatherOf(v).Some? ==> WeatherOrdinal(WeatherOf(v).value) == v
  {
  }

  /** The Track enumeration, ordinals -1 (Unknown) to 24. */
  datatype Track =
    | Unknown | Melbourne | PaulRicard | Shanghai | Sakhir | Catalunya | Monaco | Montreal
    | Silverstone | Hockenheim | Hungaroring | Spa | Monza | Singapore | Suzuka | AbuDhabi
    | Texas | Brazil | Austria | Sochi | Mexico | Baku | SakhirShort | SilverstoneShort
    | TexasShort | SuzukaShort

  /** The enumerators in ordinal order, starting from Unknown = -1. */
  const Tracks: seq<Track> := [
    Unknown, Melbourne, PaulRicard, Shanghai, Sakhir, Catalunya, Monaco, Montreal,
    Silverstone, Hockenheim, Hungaroring, Spa, Monza, Singapore, Suzuka, AbuDhabi,
    Texas, Brazil, Austria, Sochi, Mexico, Baku, SakhirShort, SilverstoneShort,
    TexasShort, SuzukaShort]

  /** A signed track byte as a named enumerator, when it names one. */
  function TrackOf(v: int): (t: Option<Track>)
    ensures t.Some? <==> -1 <= v <= 24
  {
    if -1 <= v < |Tracks| - 1 then Some(Tracks[v + 1]) else None
  }

  /** The ordinal of an enumerator. */
  function TrackOrdinal(t: Track): int {
    match t
    case Unknown => -1
    case Melbourne => 0
    case PaulRicard => 1
    case Shanghai => 2
    case Sakhir => 3
    case Catalunya => 4
    case Monaco => 5
    case Montreal => 6
    case Silverstone => 7
    case Hockenheim => 8
    case Hungaroring => 9
    case Spa => 10
    case Monza => 11
    case Singapore => 12
    case Suzuka => 13
    case AbuDhabi => 14
    case Texas => 15
    case Brazil => 16
    case Austria => 17
    case Sochi => 18
    case Mexico => 19
    case Baku => 20
    case SakhirShort => 21
    case SilverstoneShort => 22
    case TexasShort => 23
    case SuzukaShort => 24
  }

  /** Every enumerator's declared ordinal names it back. */
  lemma TrackOrdinalNamesTrack(t: Track)
    ensures TrackOf(TrackOrdinal(t)) == Some(t)
  {
  }

  /** The ordinals -1 .. 24 each name the enumerator declared with that ordinal. */
  lemma TrackNamedByOrdinal(v: int)
    requires -1 <= v <= 24
    ensures TrackOrdinal(TrackOf(v).value) == v
  {
  }
}
