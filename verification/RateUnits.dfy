/** Units of rate limits (internal/filters/rate_limiter/fixed_window.go), shared by the limiters. */
module RateUnits {
  import Text

  /** Seconds in a rate limit unit; an unknown unit is a minute. */
  function Divider(unit: string): (d: int)
    ensures d >= 1
  {
    match Text.Lower(unit)
    case "second" => 1
    case "minute" => 60
    case "hour" => 3600
    case "day" => 86400
    case "week" => 604800
    case "month" => 2592000
    case "year" => 31536000
    case _ => 60
  }

  lemma LowerWord(word: string)
    requires forall i | 0 <= i < |word| :: 'a' <= word[i] <= 'z'
    ensures Text.Lower(word) == word
  {
  }

  /** Units nest as they should, in any spelling; months have 30 days and years 365. */
  lemma UnitsNest(unit: string)
    ensures Divider("second") == 1 && Divider("minute") == 60 * Divider("second")
    ensures Divider("hour") == 60 * Divider("minute") && Divider("day") == 24 * Divider("hour")
    ensures Divider("week") == 7 * Divider("day") && Divider("month") == 30 * Divider("day")
    ensures Divider("year") == 365 * Divider("day")
    ensures Divider(unit) == Divider(Text.Lower(unit))
    ensures Text.Lower(unit) !in {"second", "minute", "hour", "day", "week", "month", "year"} ==>
              Divider(unit) == Divider("minute")
  {
    LowerWord("second");
    LowerWord("minute");
    LowerWord("hour");
    LowerWord("day");
    LowerWord("week");
    LowerWord("month");
    LowerWord("year");
    Text.LowerIsLower(unit);
    hide Text.Lower;
  }
}
