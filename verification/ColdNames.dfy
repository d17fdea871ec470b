/**
 Names of cold files: `{start}_{end}.parquet`, or `{start}_{end}-{n}.parquet` when that name is
 taken. Pruning trusts the range parsed back from the name, so parsing must undo formatting for
 every `i64`, negative ones included.
 */
module ColdNames {
  import opened Candles

  const U32_COUNT: nat := 0x1_0000_0000

  // ----- decimal text -----

  predicate IsDigit(c: char) { '0' <= c <= '9' }

  predicate AllDigits(s: string) { forall i :: 0 <= i < |s| ==> IsDigit(s[i]) }

  function DigitChar(d: nat): (c: char)
    requires d < 10
    ensures IsDigit(c) && c as int - '0' as int == d
  {
    ('0' as int + d) as char
  }

  function FormatNat(n: nat): (s: string)
    ensures s != [] && AllDigits(s)
  {
    if n < 10 then [DigitChar(n)] else FormatNat(n / 10) + [DigitChar(n % 10)]
  }

  function FormatInt(x: int): (s: string)
    ensures s != [] && '_' !in s
    ensures forall i :: 0 <= i < |s| ==> IsDigit(s[i]) || (i == 0 && s[i] == '-')
  {
    if x < 0 then "-" + FormatNat(-x) else FormatNat(x)
  }

  /** The value of a non-empty run of digits. */
  function NatValue(s: string): Option<nat> {
    if s == [] || !IsDigit(s[|s| - 1]) then None
    else
      var d := s[|s| - 1] as int - '0' as int;
      if |s| == 1 then Some(d)
      else match NatValue(s[..|s| - 1])
        case None => None
        case Some(v) => Some(10 * v + d)
  }

  /** `str::parse::<i64>`: an optional sign, digits, and no overflow. */
  function ParseI64(s: string): Option<I64> {
    if s == [] then None
    else
      var negative := s[0] == '-';
      match NatValue(if negative || s[0] == '+' then s[1..] else s)
      case None => None
      case Some(v) =>
        var x: int := if negative then 0 - (v as int) else v;
        if -0x8000_0000_0000_0000 <= x < 0x8000_0000_0000_0000 then Some(x) else None
  }

  /** `str::parse::<u32>`: an optional plus sign, digits, and no overflow. */
  function ParseU32(s: string): Option<nat> {
    if s == [] then None
    else match NatValue(if s[0] == '+' then s[1..] else s)
      case None => None
      case Some(v) => if v < U32_COUNT then Some(v) else None
  }

  lemma {:induction false} NatValueOfFormat(n: nat)
    ensures NatValue(FormatNat(n)) == Some(n)
  {
    if n >= 10 {
      NatValueOfFormat(n / 10);
      var s := FormatNat(n);
      assert s[..|s| - 1] == FormatNat(n / 10);
    }
  }

  lemma {:induction false} NatValueNeedsDigits(s: string, i: nat)
    requires i < |s| && !IsDigit(s[i])
    ensures NatValue(s) == None
  {
    if i < |s| - 1 {
      NatValueNeedsDigits(s[..|s| - 1], i);
    }
  }

  lemma ParseOfFormat(x: I64)
    ensures ParseI64(FormatInt(x)) == Some(x)
  {
    if x < 0 {
      var magnitude: int := x;
      NatValueOfFormat(-magnitude);
      assert FormatInt(x)[1..] == FormatNat(-magnitude);
    } else {
      NatValueOfFormat(x);
      assert IsDigit(FormatInt(x)[0]);
    }
  }

  /** A dash after the first character is never part of an `i64`. */
  lemma InnerDashIsNoI64(s: string, i: nat)
    requires 0 < i < |s| && s[i] == '-'
    ensures ParseI64(s) == None
  {
    if s[0] == '-' || s[0] == '+' {
      NatValueNeedsDigits(s[1..], i - 1);
    } else {
      NatValueNeedsDigits(s, i);
    }
  }

  // ----- splitting -----

  /** `str::split_once`: around the first occurrence. */
  function SplitOnce(s: string, sep: char): Option<(string, string)> {
    if s == [] then None
    else if s[0] == sep then Some(([], s[1..]))
    else match SplitOnce(s[1..], sep)
      case None => None
      case Some(p) => Some(([s[0]] + p.0, p.1))
  }

  /** `str::rsplit_once`: around the last occurrence. */
  function RSplitOnce(s: string, sep: char): Option<(string, string)> {
    if s == [] then None
    else if s[|s| - 1] == sep then Some((s[..|s| - 1], []))
    else match RSplitOnce(s[..|s| - 1], sep)
      case None => None
      case Some(p) => Some((p.0, p.1 + [s[|s| - 1]]))
  }

  lemma {:induction false} SplitOnceAt(a: string, sep: char, b: string)
    requires sep !in a
    ensures SplitOnce(a + [sep] + b, sep) == Some((a, b))
  {
    var s := a + [sep] + b;
    if a == [] {
      assert s[1..] == b;
    } else {
      assert s[1..] == a[1..] + [sep] + b;
      SplitOnceAt(a[1..], sep, b);
      assert [a[0]] + a[1..] == a;
    }
  }

  lemma {:induction false} RSplitOnceAt(a: string, sep: char, b: string)
    requires sep !in b
    ensures RSplitOnce(a + [sep] + b, sep) == Some((a, b))
  {
    var s := a + [sep] + b;
    if b == [] {
      assert s[..|s| - 1] == a;
    } else {
      assert s[..|s| - 1] == a + [sep] + b[..|b| - 1];
      RSplitOnceAt(a, sep, b[..|b| - 1]);
      assert b[..|b| - 1] + [b[|b| - 1]] == b;
    }
  }

  // ----- file names -----

  /** `Path::file_stem` of a directory entry: a lone leading dot is not a separator. */
  function FileStem(name: string): string {
    match RSplitOnce(name, '.')
    case None => name
    case Some(p) => if p.0 == [] then name else p.0
  }

  /** `Path::extension` of a directory entry. */
  function Extension(name: string): Option<string> {
    match RSplitOnce(name, '.')
    case None => None
    case Some(p) => if p.0 == [] then None else Some(p.1)
  }

  function PlainStem(start: I64, end: I64): string {
    FormatInt(start) + ['_'] + FormatInt(end)
  }

  /** The file-name part of `cold_file_path`. */
  function PlainName(start: I64, end: I64): string {
    PlainStem(start, end) + ['.'] + "parquet"
  }

  /** The name `spill` falls back to on its `n`-th collision. */
  function SuffixedName(start: I64, end: I64, n: nat): string {
    (PlainStem(start, end) + ['-'] + FormatNat(n)) + ['.'] + "parquet"
  }

  function ParseTsRange(name: string): Option<(I64, I64)> {
    match SplitOnce(FileStem(name), '_')
    case None => None
    case Some(ab) =>
      match ParseEnd(ab.1)
      case None => None
      case Some(end) =>
        match ParseI64(ab.0)
        case None => None
        case Some(start) => Some((start, end))
  }

  /** The end timestamp, with a collision suffix stripped when the plain parse fails. */
  function ParseEnd(b: string): Option<I64> {
    match ParseI64(b)
    case Some(end) => Some(end)
    case None =>
      match RSplitOnce(b, '-')
      case None => None
      case Some(p) => if ParseU32(p.1).None? then None else ParseI64(p.0)
  }

  lemma PlainNameParts(start: I64, end: I64)
    ensures FileStem(PlainName(start, end)) == PlainStem(start, end)
    ensures Extension(PlainName(start, end)) == Some("parquet")
  {
    RSplitOnceAt(PlainStem(start, end), '.', "parquet");
  }

  /** Parsing the plain name gives back its range, for every pair of `i64`. */
  lemma PlainNameRoundTrip(start: I64, end: I64)
    ensures ParseTsRange(PlainName(start, end)) == Some((start, end))
    ensures Extension(PlainName(start, end)) == Some("parquet")
  {
    PlainNameParts(start, end);
    SplitOnceAt(FormatInt(start), '_', FormatInt(end));
    ParseOfFormat(start);
    ParseOfFormat(end);
  }

  lemma SuffixedNameParts(start: I64, end: I64, n: nat)
    ensures FileStem(SuffixedName(start, end, n)) == FormatInt(start) + ['_'] + (FormatInt(end) + ['-'] + FormatNat(n))
    ensures Extension(SuffixedName(start, end, n)) == Some("parquet")
  {
    var stem := PlainStem(start, end) + ['-'] + FormatNat(n);
    RSplitOnceAt(stem, '.', "parquet");
    assert stem == FormatInt(start) + ['_'] + (FormatInt(end) + ['-'] + FormatNat(n));
  }

  lemma SuffixIsStripped(end: I64, n: nat)
    ensures ParseI64(FormatInt(end) + ['-'] + FormatNat(n)) == None
    ensures RSplitOnce(FormatInt(end) + ['-'] + FormatNat(n), '-') == Some((FormatInt(end), FormatNat(n)))
    ensures ParseU32(FormatNat(n)) == if n < U32_COUNT then Some(n) else None
  {
    var e := FormatInt(end);
    assert (e + ['-'] + FormatNat(n))[|e|] == '-';
    InnerDashIsNoI64(e + ['-'] + FormatNat(n), |e|);
    RSplitOnceAt(e, '-', FormatNat(n));
    NatValueOfFormat(n);
    assert IsDigit(FormatNat(n)[0]);
  }

  /**
   Parsing a collision-suffixed name gives back its range when the suffix is a `u32`, and fails
   altogether (so the file is never pruned) when it is larger.
   */
  lemma SuffixedNameRoundTrip(start: I64, end: I64, n: nat)
    ensures ParseTsRange(SuffixedName(start, end, n)) == if n < U32_COUNT then Some((start, end)) else None
    ensures Extension(SuffixedName(start, end, n)) == Some("parquet")
  {
    SuffixedNameParts(start, end, n);
    SplitOnceAt(FormatInt(start), '_', FormatInt(end) + ['-'] + FormatNat(n));
    SuffixIsStripped(end, n);
    ParseOfFormat(start);
    ParseOfFormat(end);
  }

  /** Different suffixes give different names. */
  lemma SuffixesDiffer(start: I64, end: I64, n: nat, m: nat)
    requires SuffixedName(start, end, n) == SuffixedName(start, end, m)
    ensures n == m
  {
    var p := PlainStem(start, end);
    RSplitOnceAt(p + ['-'] + FormatNat(n), '.', "parquet");
    RSplitOnceAt(p + ['-'] + FormatNat(m), '.', "parquet");
    RSplitOnceAt(p, '-', FormatNat(n));
    RSplitOnceAt(p, '-', FormatNat(m));
    NatValueOfFormat(n);
    NatValueOfFormat(m);
  }

  lemma SuffixedIsNotPlain(start: I64, end: I64, n: nat)
    ensures SuffixedName(start, end, n) != PlainName(start, end)
  {
    var p, s := PlainStem(start, end), PlainStem(start, end) + ['-'] + FormatNat(n);
    RSplitOnceAt(p, '.', "parquet");
    RSplitOnceAt(s, '.', "parquet");
    assert |p| < |s|;
  }

  // ----- symbol directories -----

  /** ASCII letters and digits; `char::is_alphanumeric` on the symbols the feeds use. */
  predicate IsAlphanumeric(c: char) {
    'a' <= c <= 'z' || 'A' <= c <= 'Z' || IsDigit(c)
  }

  function EscapeChar(c: char): char {
    if IsAlphanumeric(c) || c == '-' then c else '_'
  }

  /** `escape_symbol`: the directory name of a symbol. */
  function EscapeSymbol(symbol: string): string {
    seq(|symbol|, i requires 0 <= i < |symbol| => EscapeChar(symbol[i]))
  }

  predicate IsSafeName(s: string) {
    forall i :: 0 <= i < |s| ==> IsAlphanumeric(s[i]) || s[i] == '-' || s[i] == '_'
  }

  /** A directory name has only letters, digits, dashes and underscores; a symbol without others is its own. */
  lemma EscapeIsSafe(symbol: string)
    ensures IsSafeName(EscapeSymbol(symbol)) && |EscapeSymbol(symbol)| == |symbol|
    ensures EscapeSymbol(symbol) == symbol <==> IsSafeName(symbol)
    ensures EscapeSymbol(EscapeSymbol(symbol)) == EscapeSymbol(symbol)
  {
    var r := EscapeSymbol(symbol);
    if r == symbol {
      assert forall i :: 0 <= i < |symbol| ==> symbol[i] == EscapeChar(symbol[i]);
    }
    assert EscapeSymbol(r) == r;
  }

  /**
   Two symbols share a directory exactly when they differ only in characters that are replaced
   or are the replacement itself.
   */
  lemma EscapeCollides(a: string, b: string)
    ensures EscapeSymbol(a) == EscapeSymbol(b) <==>
            |a| == |b| && forall i :: 0 <= i < |a| ==> a[i] == b[i] || (EscapeChar(a[i]) == '_' == EscapeChar(b[i]))
  {
    if EscapeSymbol(a) == EscapeSymbol(b) {
      assert |EscapeSymbol(a)| == |a|;
      forall i | 0 <= i < |a|
        ensures a[i] == b[i] || (EscapeChar(a[i]) == '_' == EscapeChar(b[i]))
      {
        assert EscapeSymbol(a)[i] == EscapeSymbol(b)[i];
      }
    }
  }

  /** The collision is real: a pair and its dotted spelling share a directory. */
  lemma EscapeIsNotInjective()
    ensures EscapeSymbol("BTC/USDT") == EscapeSymbol("BTC.USDT") && "BTC/USDT" != "BTC.USDT"
  {
    assert "BTC/USDT"[3] != "BTC.USDT"[3];
    EscapeCollides("BTC/USDT", "BTC.USDT");
  }
}
