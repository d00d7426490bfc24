/** The dotted version string of the computer table. */
module Version {
  import opened Wire
  import opened Text

  /** RMS_DB_TYPE_FMT_VERSION */
  function Print(major: int, minor: int, release: int): string {
    IntText(major) + "." + (IntText(minor) + "." + IntText(release))
  }

  /** stream >> major >> ch >> minor >> ch >> release. None: some extraction failed,
      and the variables after it are indeterminate. */
  function Parse(s: string): Option<VersionData> {
    var (major, s1) := ReadIntAndChar(s);
    var (minor, s2) := ReadIntAndChar(s1);
    var (release, _) := ReadInt(s2, INT32);
    if major.Some? && minor.Some? && release.Some?
    then Some(VersionData(major.value, minor.value, release.value)) else None
  }

  /** stream >> n >> ch: whatever the character is, it is skipped. */
  function ReadIntAndChar(s: string): (Option<int>, string) {
    var (n, s1) := ReadInt(s, INT32);
    var (ch, s2) := ReadChar(s1);
    if ch.Some? then (n, s2) else (None, s2)
  }

  lemma ReadIntAndDot(n: int, tail: string)
    ensures ReadIntAndChar(IntText(n) + "." + tail) == (if Fits(n, INT32) then Some(n) else None, tail)
  {
    ReadIntText(n, "." + tail, INT32);
    assert IntText(n) + "." + tail == IntText(n) + ("." + tail);
    assert ("." + tail)[1..] == tail;
  }

  function PrintVersion(v: VersionData): string { Print(v.major, v.minor, v.release) }

  predicate VersionFits(v: VersionData) {
    Fits(v.major, INT32) && Fits(v.minor, INT32) && Fits(v.release, INT32)
  }

  lemma ParsePrint(major: int, minor: int, release: int)
    ensures Parse(Print(major, minor, release)) ==
      if VersionFits(VersionData(major, minor, release)) then Some(VersionData(major, minor, release)) else None
  {
    ReadIntAndDot(major, IntText(minor) + "." + IntText(release));
    ReadIntAndDot(minor, IntText(release));
    ReadIntText(release, "", INT32);
    assert IntText(release) + "" == IntText(release);
  }

  /** The reader returns the printed triple exactly when all three numbers are 32-bit
      ints, negative ones included. */
  lemma VersionRoundTrip(v: VersionData)
    ensures Parse(PrintVersion(v)) == Some(v) <==> VersionFits(v)
  {
    ParsePrint(v.major, v.minor, v.release);
  }

  lemma PrintSample()
    ensures Print(2, 10, -1) == "2.10.-1" && Print(2, 2, 0) == "2.2.0"
  {
    assert Digits(10) == Digits(1) + Digits(0);
  }

  /** So two versions have the same text only if they are equal. */
  lemma PrintInjective(v: VersionData, w: VersionData)
    requires VersionFits(v) && PrintVersion(v) == PrintVersion(w)
    ensures v == w
  {
    VersionRoundTrip(v);
    ParsePrint(w.major, w.minor, w.release);
  }
}
