/** The text a `Date` becomes when it is serialised to JSON: `toISOString()`,
    `YYYY-MM-DDTHH:mm:ss.sssZ` in UTC, with years outside 0..9999 written as a
    sign and six digits, as ECMA-262 specifies for Date.prototype.toISOString. */
module IsoDates {
  import opened JsValues

  const MsPerDay := 86_400_000

  /** `n` in decimal, left-padded with zeros to at least `width` digits. */
  function Padded(n: nat, width: nat): (s: string)
    ensures |s| >= width && AllDigits(s, 10)
  {
    var digits := IntegerText(n);
    if |digits| < width then seq(width - |digits|, _ => '0') + digits else digits
  }

  /** Year, month (1..12) and day (1..31) of the proleptic Gregorian date that
      lies `days` days after 1970-01-01 (the days-to-civil conversion, counted in
      400-year eras that start on March 1st). Dafny's `/` and `%` round toward
      negative infinity for a positive divisor, as the conversion needs. */
  function CivilFromDays(days: int): (int, nat, nat) {
    var z := days + 719468;
    var era := z / 146097;
    var dayOfEra := z % 146097;
    var yearOfEra := (dayOfEra - dayOfEra / 1460 + dayOfEra / 36524 - dayOfEra / 146096) / 365;
    var dayOfYear := dayOfEra - (365 * yearOfEra + yearOfEra / 4 - yearOfEra / 100);
    var marchMonth := (5 * dayOfYear + 2) / 153;
    var day := dayOfYear - (153 * marchMonth + 2) / 5 + 1;
    var month := if marchMonth < 10 then marchMonth + 3 else marchMonth - 9;
    (yearOfEra + era * 400 + (if month <= 2 then 1 else 0), month, day)
  }

  function YearText(year: int): string {
    if 0 <= year <= 9999 then Padded(year, 4)
    else if year < 0 then "-" + Padded(-year, 6)
    else "+" + Padded(year, 6)
  }

  /** `new Date(timeMs).toISOString()`: the text always ends in `Z`. */
  function IsoText(timeMs: int): (s: string)
    ensures |s| > 0 && s[|s| - 1] == 'Z'
  {
    var (year, month, day) := CivilFromDays(timeMs / MsPerDay);
    var msOfDay := timeMs % MsPerDay;
    YearText(year) + "-" + Padded(month, 2) + "-" + Padded(day, 2)
    + "T" + Padded(msOfDay / 3_600_000, 2) + ":" + Padded(msOfDay / 60_000 % 60, 2)
    + ":" + Padded(msOfDay / 1000 % 60, 2) + "." + Padded(msOfDay % 1000, 3) + "Z"
  }

  /** The JSON string of any `Date` is NaN to `Number`: a number is never
      written with a trailing `Z`. */
  lemma IsoTextIsNaN(timeMs: int)
    ensures ToNumber(Str(IsoText(timeMs))) == NaN
  {
    ZEndedTextIsNaN(IsoText(timeMs));
  }
}
