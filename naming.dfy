/** File names of the server: Python's `str` of an integer, the output
    video name `f"{n}_out.mp4"`, the results name `f"{n}_out_results.json"`,
    the glob `*_out.mp4` and the `splitext` stem the reader uses. */
module Naming {

  predicate IsDigit(c: char) {
    '0' <= c <= '9'
  }

  function DigitChar(d: int): (c: char)
    requires 0 <= d < 10
    ensures IsDigit(c)
  {
    (('0' as int) + d) as char
  }

  /** Decimal digits of a natural number, without leading zeros. */
  function NatToString(n: nat): (s: string)
    ensures |s| > 0
    ensures forall i :: 0 <= i < |s| ==> IsDigit(s[i])
    ensures (n < 10) == (|s| == 1)
    decreases n
  {
    if n < 10 then [DigitChar(n)] else NatToString(n / 10) + [DigitChar(n % 10)]
  }

  /** `str(n)` for an integer, with a leading '-' when negative. */
  function IntToString(n: int): (s: string)
    ensures |s| > 0 && (IsDigit(s[0]) || s[0] == '-')
    ensures s[0] == '-' <==> n < 0
  {
    if n < 0 then "-" + NatToString(-n) else NatToString(n)
  }

  lemma {:induction false} NatToStringInjective(a: nat, b: nat)
    requires NatToString(a) == NatToString(b)
    ensures a == b
    decreases a
  {
    if a >= 10 && b >= 10 {
      var sa, sb := NatToString(a), NatToString(b);
      assert sa[|sa| - 1] == DigitChar(a % 10) && sb[|sb| - 1] == DigitChar(b % 10);
      assert sa[..|sa| - 1] == NatToString(a / 10);
      assert sb[..|sb| - 1] == NatToString(b / 10);
      NatToStringInjective(a / 10, b / 10);
    }
  }

  /** Different numbers print differently. */
  lemma IntToStringInjective(a: int, b: int)
    requires IntToString(a) == IntToString(b)
    ensures a == b
  {
    var sa, sb := IntToString(a), IntToString(b);
    if a < 0 && b < 0 {
      assert sa[1..] == NatToString(-a) && sb[1..] == NatToString(-b);
      NatToStringInjective(-a, -b);
    } else if a >= 0 && b >= 0 {
      NatToStringInjective(a, b);
    }
  }

  const OutputSuffix := "_out.mp4"

  /** `f"{video_number}_out.mp4"`. */
  function OutputName(n: int): (name: string)
    ensures |name| == |IntToString(n)| + |OutputSuffix|
    ensures name[..|IntToString(n)|] == IntToString(n) && name[|IntToString(n)|..] == OutputSuffix
  {
    IntToString(n) + OutputSuffix
  }

  /** `f"{video_number}_out_results.json"`. */
  function ResultsFileName(n: int): (name: string)
    ensures |name| == |IntToString(n)| + |"_out_results.json"|
    ensures name[..|IntToString(n)|] == IntToString(n) && name[|IntToString(n)|..] == "_out_results.json"
  {
    IntToString(n) + "_out_results.json"
  }

  predicate EndsWith(s: string, suffix: string) {
    |s| >= |suffix| && s[|s| - |suffix|..] == suffix
  }

  /** The names `glob('*_out.mp4')` lists: ending in `_out.mp4` and, as
      glob's `*` never matches a leading dot, not starting with '.'. */
  predicate IsOutputVideo(name: string): (listed: bool)
    ensures listed ==> |name| >= |OutputSuffix| && name[|name| - |OutputSuffix|..] == OutputSuffix && name[0] != '.'
  {
    EndsWith(name, OutputSuffix) && name[0] != '.'
  }

  /** `f"{os.path.splitext(filename)[0]}_results.json"` for a listed video:
      its last dot is the one of ".mp4", so the stem drops four characters. */
  function ResultsNameOf(videoName: string): (r: string)
    requires IsOutputVideo(videoName)
    ensures EndsWith(r, "_results.json")
  {
    videoName[..|videoName| - 4] + "_results.json"
  }

  /** Every name the server gives an output is one the glob lists. */
  lemma OutputNameIsListed(n: int)
    ensures IsOutputVideo(OutputName(n))
  {
    var s := OutputName(n);
    assert s[0] == IntToString(n)[0];
    assert s[|s| - |OutputSuffix|..] == OutputSuffix;
  }

  /** The results name the reader derives from an output name is the one
      the writer uses for the same number. */
  lemma ResultsNameMatchesWriter(n: int)
    ensures IsOutputVideo(OutputName(n))
    ensures ResultsNameOf(OutputName(n)) == ResultsFileName(n)
  {
    OutputNameIsListed(n);
    var s := OutputName(n);
    assert s[..|s| - 4] == IntToString(n) + "_out";
  }

  /** Distinct video numbers give distinct output names. */
  lemma OutputNameInjective(a: int, b: int)
    requires OutputName(a) == OutputName(b)
    ensures a == b
  {
    var sa, sb := OutputName(a), OutputName(b);
    assert sa[..|sa| - |OutputSuffix|] == IntToString(a);
    assert sb[..|sb| - |OutputSuffix|] == IntToString(b);
    IntToStringInjective(a, b);
  }
}
