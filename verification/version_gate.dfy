/**
 * The version gate of the view provider: at class-definition time the host's
 * version is formatted as "major.minor" and compared with "0.22" as a Python
 * string, which decides which pair of persistence hooks the proxy defines.
 */
module VersionGate {
  import opened Strings

  const Threshold: string := "0.22"

  /** The two persistence protocols: `dumps`/`loads` or `__getstate__`/`__setstate__`. */
  datatype Protocol = Modern | Legacy

  function VersionString(major: string, minor: string): string
  {
    major + "." + minor
  }

  /** The gate: lexicographic `>=`, not a numeric comparison. */
  function SelectProtocol(major: string, minor: string): (p: Protocol)
    ensures p == Modern <==>
      (VersionString(major, minor) == Threshold || StrLess(Threshold, VersionString(major, minor)))
  {
    StrGeMeansEqualOrGreater(VersionString(major, minor), Threshold);
    if StrGe(VersionString(major, minor), Threshold) then Modern else Legacy
  }

  /** The names of the state-saving and state-restoring methods the proxy exposes. */
  function HookNames(p: Protocol): (names: (string, string))
    ensures names.0 != names.1
  {
    match p
    case Modern => ("dumps", "loads")
    case Legacy => ("__getstate__", "__setstate__")
  }

  /** The gate on released host versions around the threshold. */
  lemma ReleasedVersions()
    ensures SelectProtocol("0", "19") == Legacy
    ensures SelectProtocol("0", "20") == Legacy
    ensures SelectProtocol("0", "21") == Legacy
    ensures SelectProtocol("0", "22") == Modern
    ensures SelectProtocol("1", "0") == Modern
    ensures SelectProtocol("1", "1") == Modern
    ensures HookNames(SelectProtocol("0", "21")) == ("__getstate__", "__setstate__")
    ensures HookNames(SelectProtocol("1", "0")) == ("dumps", "loads")
  {
    TwoDigitMinorAgreesWithNumeric('1', '9');
    TwoDigitMinorAgreesWithNumeric('2', '0');
    TwoDigitMinorAgreesWithNumeric('2', '1');
    TwoDigitMinorAgreesWithNumeric('2', '2');
  }

  /** With major "0" and a two-digit minor, the string order agrees with the
      numeric one: the modern pair is chosen exactly from minor 22 on. */
  lemma TwoDigitMinorAgreesWithNumeric(d1: char, d2: char)
    requires IsDigit(d1) && IsDigit(d2)
    ensures SelectProtocol("0", [d1, d2]) == Modern <==> DigitsValue([d1, d2]) >= 22
  {
    assert [d1, d2][..1] == [d1] && [d1][..0] == [];
    assert DigitsValue([d1]) == d1 as int - '0' as int;
    assert DigitsValue([d1, d2]) == (d1 as int - '0' as int) * 10 + (d2 as int - '0' as int);
    assert StrLess([d1, d2], "22") <==> d1 < '2' || (d1 == '2' && StrLess([d2], "2"));
    var v := VersionString("0", [d1, d2]);
    assert v == ['0', '.', d1, d2];
    assert StrLess(v, Threshold) <==> StrLess([d1, d2], "22");
  }

  /** With a one-digit minor the string order departs from the numeric one:
      "0.3" to "0.9" select the modern pair although 3..9 < 22. */
  lemma OneDigitMinorIsNotNumeric(d: char)
    requires IsDigit(d)
    ensures SelectProtocol("0", [d]) == Modern <==> d >= '3'
  {
    var v := VersionString("0", [d]);
    assert v == ['0', '.', d];
    assert StrLess(v, Threshold) <==> StrLess([d], "22");
  }

  /** Any major version starting with a digit 1..9 selects the modern pair. */
  lemma MajorFromOneIsModern(major: string, minor: string)
    requires |major| > 0 && '1' <= major[0] <= '9'
    ensures SelectProtocol(major, minor) == Modern
  {
    assert VersionString(major, minor)[0] == major[0];
  }
}
