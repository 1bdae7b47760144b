/** Status pass-through and the time-unit to frame-rate table (src/Utilities.h). */
module Utilities {

  /** A Maya status code. */
  datatype MStatus = Success | Failure | OtherCode(code: nat)

  /**
   * `Status(message, status)`: logs the message (left out) and hands the
   * status back unchanged.
   */
  function Status(message: string, status: MStatus): (r: MStatus)
    ensures r == status
  {
    status
  }

  /** `MTime::Unit`. The units `GetFrameRate` does not list are grouped at the end. */
  datatype TimeUnit =
    | Fps2 | Fps3 | Fps4 | Fps5 | Fps6 | Fps8 | Fps10 | Fps12
    | Games | Fps16 | Fps20 | Fps23_976 | Film | PALFrame
    | Fps29_97 | Fps29_97DF | NTSCFrame | Fps40 | Fps47_952 | ShowScan
    | PALField | Fps59_94 | NTSCField | Fps75 | Fps80 | Fps90
    | Fps100 | Fps119_88 | Fps120 | Fps125 | Fps150
    | Fps200 | Fps240 | Fps250 | Fps300 | Fps375
    | Fps400 | Fps500 | Fps600 | Fps750
    | Fps1200 | Fps1500 | Fps2000 | Fps3000 | Fps6000 | Fps44100 | Fps48000
    | Hours | Minutes | Seconds | Milliseconds | UserDef | Invalid

  /** Frames per second of a time unit; 30 for any unit the table does not list. */
  function GetFrameRate(unit: TimeUnit): (frameRate: real)
    ensures frameRate > 0.0
  {
    match unit
    case Fps2 => 2.0
    case Fps3 => 3.0
    case Fps4 => 4.0
    case Fps5 => 5.0
    case Fps6 => 6.0
    case Fps8 => 8.0
    case Fps10 => 10.0
    case Fps12 => 12.0
    case Games => 15.0
    case Fps16 => 16.0
    case Fps20 => 20.0
    case Fps23_976 => 23.976
    case Film => 24.0
    case PALFrame => 25.0
    case Fps29_97 => 29.97
    case Fps29_97DF => 29.97
    case NTSCFrame => 30.0
    case Fps40 => 40.0
    case Fps47_952 => 47.952
    case ShowScan => 48.0
    case PALField => 50.0
    case Fps59_94 => 59.94
    case NTSCField => 60.0
    case Fps75 => 75.0
    case Fps80 => 80.0
    case Fps90 => 90.0
    case Fps100 => 100.0
    case Fps119_88 => 119.88
    case Fps120 => 120.0
    case Fps125 => 125.0
    case Fps150 => 150.0
    case Fps200 => 200.0
    case Fps240 => 240.0
    case Fps250 => 250.0
    case Fps300 => 300.0
    case Fps375 => 375.0
    case Fps400 => 400.0
    case Fps500 => 500.0
    case Fps600 => 600.0
    case Fps750 => 750.0
    case Fps1200 => 1200.0
    case Fps1500 => 1500.0
    case Fps2000 => 2000.0
    case Fps3000 => 3000.0
    case Fps6000 => 6000.0
    case Fps44100 => 44100.0
    case Fps48000 => 48000.0
    case _ => 30.0
  }

  /** The broadcast and film units and the two 29.97 variants. */
  lemma NamedFrameRates()
    ensures GetFrameRate(Film) == 24.0 && GetFrameRate(PALFrame) == 25.0
    ensures GetFrameRate(NTSCFrame) == 30.0 && GetFrameRate(NTSCField) == 60.0
    ensures GetFrameRate(Games) == 15.0
    ensures GetFrameRate(Fps29_97) == GetFrameRate(Fps29_97DF) == 29.97
  {
  }

  /** The units the table does not list: the clock units, a user-defined rate and an invalid unit. */
  predicate Unlisted(unit: TimeUnit) {
    unit.Hours? || unit.Minutes? || unit.Seconds? || unit.Milliseconds? || unit.UserDef? || unit.Invalid?
  }

  /** An unlisted unit falls back to 30 frames per second. */
  lemma UnlistedFrameRate(unit: TimeUnit)
    requires Unlisted(unit)
    ensures GetFrameRate(unit) == 30.0
  {
  }
}
