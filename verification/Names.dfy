/** DNS names: labels, fully qualified domain names and reserved suffixes. */
module Names {
  import opened Types

  const MAX_LABEL_LENGTH := 63
  const MAX_DOMAIN_LENGTH := 253

  predicate IsLower(c: char) { 'a' <= c <= 'z' }
  predicate IsDigit(c: char) { '0' <= c <= '9' }

  /** A label in the sense of section 2.1 of RFC 1123, in lower case. */
  predicate ValidLabel(name: string) {
    && 1 <= |name| <= MAX_LABEL_LENGTH
    && (forall i :: 0 <= i < |name| ==> IsLower(name[i]) || IsDigit(name[i]) || name[i] == '-')
    && name[0] != '-' && name[|name| - 1] != '-'
  }

  method IsValidDNSLabel(name: string) returns (ok: bool)
    ensures ok <==> ValidLabel(name)
  {
    var n := |name|;
    if n == 0 || n > MAX_LABEL_LENGTH {
      return false;
    }
    for i := 0 to n
      invariant forall j :: 0 <= j < i ==> IsLower(name[j]) || IsDigit(name[j]) || (name[j] == '-' && j != 0 && j != n - 1)
    {
      var c := name[i];
      if IsLower(c) || IsDigit(c) {
      } else if c == '-' {
        if i == 0 || i == n - 1 {
          return false;
        }
      } else {
        return false;
      }
    }
    return true;
  }

  /** The labels of a name: what splitting at every dot gives. */
  function Labels(s: string): (ls: seq<string>)
    ensures |ls| >= 1
  {
    if s == "" then [""]
    else
      var rest := Labels(s[1..]);
      if s[0] == '.' then [""] + rest else [[s[0]] + rest[0]] + rest[1..]
  }

  function Join(ls: seq<string>): string
    requires |ls| >= 1
  {
    if |ls| == 1 then ls[0] else ls[0] + "." + Join(ls[1..])
  }

  lemma {:induction false} JoinLabels(s: string)
    ensures Join(Labels(s)) == s
  {
    if s != "" {
      JoinLabels(s[1..]);
      var rest := Labels(s[1..]);
      if s[0] == '.' {
        assert Labels(s)[1..] == rest;
      } else {
        assert Labels(s)[1..] == rest[1..];
      }
    }
  }

  lemma {:induction false} LabelsOfConcat(p: string, x: string)
    ensures Labels(p + "." + x) == Labels(p) + Labels(x)
  {
    hide Labels;
    LabelsOfNothing();
    if p == "" {
      assert p + "." + x == ['.'] + x;
      LabelsCons('.', x);
    } else {
      var q := p[1..];
      LabelsOfConcat(q, x);
      assert p + "." + x == [p[0]] + (q + "." + x);
      assert p == [p[0]] + q;
      LabelsCons(p[0], q + "." + x);
      LabelsCons(p[0], q);
    }
  }

  lemma LabelsOfNothing()
    ensures Labels("") == [""]
  {
  }

  lemma LabelsCons(c: char, s: string)
    ensures Labels([c] + s) == if c == '.' then [""] + Labels(s) else [[c] + Labels(s)[0]] + Labels(s)[1..]
  {
    assert ([c] + s)[1..] == s;
  }

  lemma {:induction false} JoinOfConcat(a: seq<string>, b: seq<string>)
    requires |a| >= 1 && |b| >= 1
    ensures Join(a + b) == Join(a) + "." + Join(b)
  {
    if |a| == 1 {
      assert (a + b)[1..] == b;
    } else {
      JoinOfConcat(a[1..], b);
      assert (a + b)[1..] == a[1..] + b;
      assert Join(a) == a[0] + "." + Join(a[1..]);
    }
  }

  /** Every character of a name is a dot or stands in one of its labels. */
  lemma {:induction false} CharInLabel(s: string, i: nat)
    requires i < |s| && s[i] != '.'
    ensures exists k, j :: 0 <= k < |Labels(s)| && 0 <= j < |Labels(s)[k]| && Labels(s)[k][j] == s[i]
  {
    var rest := Labels(s[1..]);
    if i == 0 {
      assert Labels(s)[0][0] == s[0];
    } else {
      CharInLabel(s[1..], i - 1);
      var k, j :| 0 <= k < |rest| && 0 <= j < |rest[k]| && rest[k][j] == s[i];
      if s[0] == '.' {
        assert Labels(s)[k + 1][j] == s[i];
      } else if k == 0 {
        assert Labels(s)[0][j + 1] == s[i];
      } else {
        assert Labels(s)[k][j] == s[i];
      }
    }
  }

  predicate HasNonDigit(s: string) { exists i :: 0 <= i < |s| && !IsDigit(s[i]) }

  /** The names accepted as custom domains: 1 to 253 characters, at least two labels, every
      label valid, and a last label that is not a number. */
  predicate ValidFqdn(s: string) {
    var ls := Labels(s);
    && 1 <= |s| <= MAX_DOMAIN_LENGTH
    && |ls| >= 2
    && (forall k :: 0 <= k < |ls| ==> ValidLabel(ls[k]))
    && HasNonDigit(ls[|ls| - 1])
  }

  /** Lower-casing of ASCII letters. */
  function LowerChar(c: char): char { if 'A' <= c <= 'Z' then c + 32 as char else c }

  function ToLower(s: string): (r: string)
    ensures |r| == |s|
  {
    seq(|s|, i requires 0 <= i < |s| => LowerChar(s[i]))
  }

  /** White space in the sense of Unicode. */
  predicate IsSpace(c: char) {
    var n := c as int;
    || c == ' ' || '\t' <= c <= '\r' || n == 0x85 || n == 0xA0 || n == 0x1680
    || 0x2000 <= n <= 0x200A || n == 0x2028 || n == 0x2029 || n == 0x202F || n == 0x205F || n == 0x3000
  }

  function TrimLeft(s: string): string { if s != "" && IsSpace(s[0]) then TrimLeft(s[1..]) else s }
  function TrimRight(s: string): string { if s != "" && IsSpace(s[|s| - 1]) then TrimRight(s[..|s| - 1]) else s }

  /** The form under which a domain is stored and looked up. */
  function Normalize(s: string): string { ToLower(TrimRight(TrimLeft(s))) }

  predicate AllSpace(s: string) { forall i :: 0 <= i < |s| ==> IsSpace(s[i]) }

  lemma {:induction false} TrimLeftSplits(s: string) returns (p: string)
    ensures AllSpace(p) && s == p + TrimLeft(s) && (TrimLeft(s) != "" ==> !IsSpace(TrimLeft(s)[0]))
    decreases |s|
  {
    p := "";
    if s != "" && IsSpace(s[0]) {
      var rest := TrimLeftSplits(s[1..]);
      p := [s[0]] + rest;
      assert s == [s[0]] + s[1..];
    }
  }

  lemma {:induction false} TrimRightSplits(s: string) returns (q: string)
    ensures AllSpace(q) && s == TrimRight(s) + q && (TrimRight(s) != "" ==> !IsSpace(TrimRight(s)[|TrimRight(s)| - 1]))
    decreases |s|
  {
    q := "";
    if s != "" && IsSpace(s[|s| - 1]) {
      var rest := TrimRightSplits(s[..|s| - 1]);
      q := rest + [s[|s| - 1]];
      assert s == s[..|s| - 1] + [s[|s| - 1]];
    }
  }

  /** `m` without the white space around it. */
  predicate IsCore(raw: string, p: string, m: string, q: string) {
    && raw == p + m + q && AllSpace(p) && AllSpace(q)
    && (m != "" ==> !IsSpace(m[0]) && !IsSpace(m[|m| - 1]))
  }

  /** Normalising drops the white space at both ends and lower-cases what is between. */
  lemma NormalizeIs(raw: string) returns (p: string, m: string, q: string)
    ensures IsCore(raw, p, m, q) && Normalize(raw) == ToLower(m)
  {
    p := TrimLeftSplits(raw);
    q := TrimRightSplits(TrimLeft(raw));
    m := TrimRight(TrimLeft(raw));
    hide TrimLeft, TrimRight, IsSpace, AllSpace;
    assert raw == p + m + q;
    assert m != "" ==> m[0] == TrimLeft(raw)[0];
  }

  /** A valid name is its own normal form. */
  lemma ValidIsNormal(s: string)
    requires ValidFqdn(s)
    ensures Normalize(s) == s
  {
    EarlyChecksAreImplied(s);
    ValidHasNoSpace(s);
  }

  lemma ValidHasNoSpace(s: string)
    requires ValidFqdn(s)
    ensures !IsSpace(s[0]) && !IsSpace(s[|s| - 1])
  {
    forall i | 0 <= i < |s| ensures !IsSpace(s[i]) {
      if s[i] != '.' {
        CharInLabel(s, i);
        var k, j :| 0 <= k < |Labels(s)| && 0 <= j < |Labels(s)[k]| && Labels(s)[k][j] == s[i];
        assert ValidLabel(Labels(s)[k]);
      }
    }
  }

  predicate Contains(s: string, t: string) {
    exists i :: 0 <= i <= |s| && t <= s[i..]
  }

  predicate Forbidden(c: char) { c in "/ \t@*?#" }

  /** Everything the checks that come before the label checks look for is excluded by them. */
  lemma EarlyChecksAreImplied(s: string)
    requires ValidFqdn(s)
    ensures ToLower(s) == s && !Contains(s, "://")
    ensures forall i :: 0 <= i < |s| ==> !Forbidden(s[i])
    ensures s[0] != '.' && s[|s| - 1] != '.'
  {
    forall i | 0 <= i < |s| ensures s[i] == '.' || IsLower(s[i]) || IsDigit(s[i]) || s[i] == '-' {
      if s[i] != '.' {
        CharInLabel(s, i);
        var k, j :| 0 <= k < |Labels(s)| && 0 <= j < |Labels(s)[k]| && Labels(s)[k][j] == s[i];
        assert ValidLabel(Labels(s)[k]);
      }
    }
    forall i | 0 <= i <= |s| ensures !("://" <= s[i..]) {
      if i < |s| { assert s[i..][0] == s[i] != ':'; }
    }
    assert ValidLabel(Labels(s)[0]) && ValidLabel(Labels(s)[|Labels(s)| - 1]);
    LastLabelOfDotted(s);
  }

  lemma LastLabelOfDotted(s: string)
    ensures s != "" && s[|s| - 1] == '.' ==> Labels(s)[|Labels(s)| - 1] == ""
  {
    if s != "" && s[|s| - 1] == '.' {
      assert s == s[..|s| - 1] + "." + "";
      LabelsOfConcat(s[..|s| - 1], "");
    }
  }

  method IsValidFQDN(domain: string) returns (r: Result<()>)
    ensures r == if ValidFqdn(domain) then Ok(()) else Err(InvalidCustomDomain)
  {
    var n := |domain|;
    if n == 0 || n > MAX_DOMAIN_LENGTH {
      return Err(InvalidCustomDomain);
    }
    if ValidFqdn(domain) {
      EarlyChecksAreImplied(domain);
    }
    if domain != ToLower(domain) || Contains(domain, "://") {
      return Err(InvalidCustomDomain);
    }
    for i := 0 to n {
      if Forbidden(domain[i]) {
        return Err(InvalidCustomDomain);
      }
    }
    if domain[0] == '.' || domain[n - 1] == '.' {
      return Err(InvalidCustomDomain);
    }
    var labels := Labels(domain);
    if |labels| < 2 {
      return Err(InvalidCustomDomain);
    }
    for i := 0 to |labels|
      invariant forall k :: 0 <= k < i ==> ValidLabel(labels[k])
    {
      var ok := IsValidDNSLabel(labels[i]);
      if !ok {
        return Err(InvalidCustomDomain);
      }
    }
    var tld := labels[|labels| - 1];
    var hasNonDigit := false;
    for i := 0 to |tld|
      invariant hasNonDigit <==> exists j :: 0 <= j < i && !IsDigit(tld[j])
    {
      if !IsDigit(tld[i]) {
        hasNonDigit := true;
        break;
      }
    }
    if !hasNonDigit {
      return Err(InvalidCustomDomain);
    }
    return Ok(());
  }

  predicate HasSuffix(s: string, t: string) {
    |t| <= |s| && s[|s| - |t|..] == t
  }

  /** The test against one entry; a malformed entry matches everything. */
  predicate HitsSuffix(domain: string, raw: string) {
    var d, s := ToLower(domain), ToLower(raw);
    |s| < 2 || s[0] != '.' || HasSuffix(d, s) || d == s[1..]
  }

  predicate Reserved(domain: string, suffixes: seq<string>) {
    exists i :: 0 <= i < |suffixes| && HitsSuffix(domain, suffixes[i])
  }

  method MatchesReservedSuffix(domain: string, suffixes: seq<string>) returns (hit: bool)
    ensures hit <==> Reserved(domain, suffixes)
  {
    var d := ToLower(domain);
    for i := 0 to |suffixes|
      invariant forall j :: 0 <= j < i ==> !HitsSuffix(domain, suffixes[j])
    {
      var s := ToLower(suffixes[i]);
      if |s| < 2 || s[0] != '.' {
        return true;
      }
      if HasSuffix(d, s) {
        return true;
      }
      if d == s[1..] {
        return true;
      }
    }
    return false;
  }

  predicate ValidSuffix(s: string) { |s| >= 2 && s[0] == '.' && ValidFqdn(s[1..]) }

  predicate IsTail(a: seq<string>, b: seq<string>) {
    |a| <= |b| && b[|b| - |a|..] == a
  }

  /** The labels of the zone named by `suffix` end the labels of the domain. */
  predicate InZone(domain: string, suffix: string) {
    suffix != "" && IsTail(Labels(suffix[1..]), Labels(ToLower(domain)))
  }

  lemma SplitSuffix(d: string, x: string) returns (p: string)
    requires HasSuffix(d, "." + x)
    ensures d == p + "." + x
  {
    p := d[..|d| - |x| - 1];
    assert d == p + ("." + x);
  }

  lemma TailOfConcat<T>(a: seq<T>, b: seq<T>)
    ensures (a + b)[|a + b| - |b|..] == b
  {
  }

  lemma SuffixIsLabelTail(d: string, x: string)
    ensures HasSuffix(d, "." + x) || d == x <==> IsTail(Labels(x), Labels(d))
  {
    if HasSuffix(d, "." + x) {
      var p := SplitSuffix(d, x);
      LabelsOfConcat(p, x);
      TailOfConcat(Labels(p), Labels(x));
    } else if d == x {
      TailOfConcat([], Labels(x));
    } else if IsTail(Labels(x), Labels(d)) {
      JoinLabels(d);
      JoinLabels(x);
      TailIsSuffix(d, x, Labels(d), Labels(x));
    }
  }

  lemma {:induction false} TailIsSuffix(d: string, x: string, ds: seq<string>, xs: seq<string>)
    requires |ds| >= 1 && |xs| >= 1 && d == Join(ds) && x == Join(xs) && IsTail(xs, ds)
    ensures HasSuffix(d, "." + x) || d == x
  {
    var a := ds[..|ds| - |xs|];
    assert ds == a + xs;
    if a == [] {
      assert ds == xs;
    } else {
      JoinOfConcat(a, xs);
      assert Join(a) + "." + x == Join(a) + ("." + x);
      TailOfConcat(Join(a), "." + x);
    }
  }

  /** On a validated entry the character test is the label test: the domain lies in the zone. */
  lemma HitIsLabelTail(domain: string, suffix: string)
    requires ValidSuffix(suffix)
    ensures HitsSuffix(domain, suffix) <==> InZone(domain, suffix)
  {
    var x := suffix[1..];
    EarlyChecksAreImplied(x);
    assert ToLower(suffix) == suffix by {
      forall i | 0 <= i < |suffix| ensures LowerChar(suffix[i]) == suffix[i] {
        if i > 0 { assert suffix[i] == x[i - 1] == ToLower(x)[i - 1]; }
      }
    }
    assert suffix == "." + x;
    SuffixIsLabelTail(ToLower(domain), x);
  }

  /** A domain is reserved exactly when it is, or lies below, one of the reserved zones. */
  lemma ReservedIsLabelTail(domain: string, suffixes: seq<string>)
    requires forall i :: 0 <= i < |suffixes| ==> ValidSuffix(suffixes[i])
    ensures Reserved(domain, suffixes) <==>
            exists i :: 0 <= i < |suffixes| && InZone(domain, suffixes[i])
  {
    forall i | 0 <= i < |suffixes|
      ensures HitsSuffix(domain, suffixes[i]) <==> InZone(domain, suffixes[i])
    {
      HitIsLabelTail(domain, suffixes[i]);
    }
  }
}
