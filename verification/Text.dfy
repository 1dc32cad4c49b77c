/** Strings as the program's standard library treats them: the order used to sort and compare
    tag names, trimming, prefixes and decimal numbers. */
module Text {

  datatype Option<+T> = None | Some(value: T)

  /* ---- Order ---- */

  // -1, 0 or 1, comparing character by character (strings.Compare)
  function Compare(a: string, b: string): (r: int)
    ensures -1 <= r <= 1
    ensures r == 0 <==> a == b
    decreases |a|
  {
    if a == [] then (if b == [] then 0 else -1)
    else if b == [] then 1
    else if a[0] < b[0] then -1
    else if a[0] > b[0] then 1
    else
      assert a == [a[0]] + a[1..] && b == [b[0]] + b[1..];
      Compare(a[1..], b[1..])
  }

  lemma {:induction false} CompareFlips(a: string, b: string)
    ensures Compare(a, b) == -Compare(b, a)
    decreases |a|
  {
    if a == [] || b == [] {
    } else if a[0] == b[0] {
      CompareFlips(a[1..], b[1..]);
    }
  }

  lemma {:induction false} CompareChains(a: string, b: string, c: string)
    requires Compare(a, b) <= 0 && Compare(b, c) <= 0
    ensures Compare(a, c) <= 0
    decreases |a|
  {
    if a == [] || b == [] || c == [] {
    } else if a[0] == b[0] == c[0] {
      CompareChains(a[1..], b[1..], c[1..]);
    }
  }

  // The order is that of dictionaries: by the first character that differs, and prefixes first
  lemma {:induction false} CompareAt(a: string, b: string, i: nat)
    requires i <= |a| && i < |b| && a[..i] == b[..i]
    ensures i == |a| || a[i] < b[i] ==> Compare(a, b) < 0
    decreases i
  {
    if i > 0 {
      assert a[0] == a[..i][0] == b[..i][0] == b[0];
      assert a[1..][..i - 1] == a[..i][1..] && b[1..][..i - 1] == b[..i][1..];
      CompareAt(a[1..], b[1..], i - 1);
    }
  }

  predicate IsLeast(k: string, keys: set<string>) {
    k in keys && forall other | other in keys :: Compare(k, other) <= 0
  }

  lemma {:induction false} LeastExists(keys: set<string>)
    requires keys != {}
    ensures exists k :: IsLeast(k, keys)
    decreases |keys|
  {
    var k :| k in keys;
    var rest := keys - {k};
    if rest == {} {
      assert keys == {k};
      assert IsLeast(k, keys);
    } else {
      LeastExists(rest);
      var m :| IsLeast(m, rest);
      CompareFlips(k, m);
      if Compare(k, m) <= 0 {
        forall other | other in keys ensures Compare(k, other) <= 0 {
          if other != k { CompareChains(k, m, other); }
        }
        assert IsLeast(k, keys);
      } else {
        assert IsLeast(m, keys);
      }
    }
  }

  lemma LeastIsUnique(keys: set<string>, k: string, m: string)
    requires IsLeast(k, keys) && IsLeast(m, keys)
    ensures k == m
  {
    CompareFlips(k, m);
  }

  function Least(keys: set<string>): (k: string)
    requires keys != {}
    ensures IsLeast(k, keys)
  {
    LeastExists(keys);
    assert forall x, y | IsLeast(x, keys) && IsLeast(y, keys) :: x == y by {
      forall x, y | IsLeast(x, keys) && IsLeast(y, keys) ensures x == y { LeastIsUnique(keys, x, y); }
    }
    var k :| k in keys && IsLeast(k, keys);
    k
  }

  /* ---- Trimming ---- */

  predicate IsSpace(c: char) {
    '\t' <= c <= '\r' || c == ' ' || c == '\U{0085}' || c == '\U{00A0}' || c == '\U{1680}' ||
    '\U{2000}' <= c <= '\U{200A}' || c == '\U{2028}' || c == '\U{2029}' || c == '\U{202F}' ||
    c == '\U{205F}' || c == '\U{3000}'
  }

  function TrimLeft(s: string): string {
    if s != [] && IsSpace(s[0]) then TrimLeft(s[1..]) else s
  }

  function TrimRight(s: string): string {
    if s != [] && IsSpace(s[|s| - 1]) then TrimRight(s[..|s| - 1]) else s
  }

  lemma {:induction false} TrimLeftMeans(s: string)
    ensures var r := TrimLeft(s); (r == [] || !IsSpace(r[0])) && |r| <= |s| && r == s[|s| - |r|..]
  {
    if s == [] {
    } else if IsSpace(s[0]) {
      TrimLeftMeans(s[1..]);
    }
  }

  lemma {:induction false} TrimRightMeans(s: string)
    ensures var r := TrimRight(s); (r == [] || !IsSpace(r[|r| - 1])) && |r| <= |s| && r == s[..|r|]
  {
    if s == [] {
    } else if IsSpace(s[|s| - 1]) {
      TrimRightMeans(s[..|s| - 1]);
    }
  }

  // strings.TrimSpace
  function Trim(s: string): (r: string) {
    TrimRight(TrimLeft(s))
  }

  // Neither end is white space: what TrimSpace leaves alone
  predicate Trimmed(s: string) {
    s == [] || (!IsSpace(s[0]) && !IsSpace(s[|s| - 1]))
  }

  predicate Blank(s: string) {
    Trim(s) == []
  }

  lemma TrimIsTrimmed(s: string)
    ensures Trimmed(Trim(s))
    ensures Trimmed(s) ==> Trim(s) == s
    ensures Trim(Trim(s)) == Trim(s)
  {
    var l := TrimLeft(s);
    var t := TrimRight(l);
    TrimLeftMeans(s);
    TrimRightMeans(l);
    if t != [] { assert t[0] == l[0]; }
    assert TrimLeft(t) == t;
  }

  lemma {:induction false} BlankMeansSpaces(s: string)
    ensures Blank(s) <==> forall i | 0 <= i < |s| :: IsSpace(s[i])
  {
    if s == [] {
    } else if IsSpace(s[0]) {
      BlankMeansSpaces(s[1..]);
      assert TrimLeft(s) == TrimLeft(s[1..]);
      assert forall i | 0 < i < |s| :: s[i] == s[1..][i - 1];
    } else {
      assert TrimLeft(s) == s;
      TrimRightKeeps(s, 0);
    }
  }

  lemma {:induction false} TrimRightKeeps(s: string, i: nat)
    requires i < |s| && !IsSpace(s[i])
    ensures |TrimRight(s)| > i
  {
    if IsSpace(s[|s| - 1]) {
      TrimRightKeeps(s[..|s| - 1], i);
    }
  }

  lemma NotBlank(s: string)
    requires s != "" && !IsSpace(s[0])
    ensures !Blank(s)
  {
    BlankMeansSpaces(s);
  }

  /* ---- Prefixes ---- */

  predicate HasPrefix(s: string, prefix: string) {
    |prefix| <= |s| && s[..|prefix|] == prefix
  }

  // The characters after a prefix the string is known to have (strings.TrimPrefix)
  function TrimPrefix(s: string, prefix: string): (r: string) {
    if HasPrefix(s, prefix) then s[|prefix|..] else s
  }

  /* ---- Searching ---- */

  // strings.IndexByte; the length when absent
  function Find(s: string, c: char): (i: nat)
    ensures i <= |s|
  {
    if s == [] || s[0] == c then 0 else 1 + Find(s[1..], c)
  }

  lemma {:induction false} FindMeans(s: string, c: char)
    ensures var i := Find(s, c); (i < |s| ==> s[i] == c) && forall j | 0 <= j < i :: s[j] != c
  {
    if s == [] {
    } else if s[0] != c {
      FindMeans(s[1..], c);
      assert forall j | 1 <= j < Find(s, c) :: s[j] == s[1..][j - 1];
    }
  }

  predicate OccursAt(s: string, sub: string, i: nat) {
    i + |sub| <= |s| && s[i..i + |sub|] == sub
  }

  // strings.LastIndex; -1 when absent
  function LastIndex(s: string, sub: string): (i: int)
    requires sub != []
    ensures i == -1 || 0 <= i <= |s| - |sub|
  {
    if |s| < |sub| then -1
    else if OccursAt(s, sub, |s| - |sub|) then |s| - |sub|
    else LastIndex(s[..|s| - 1], sub)
  }

  lemma {:induction false} LastIndexMeans(s: string, sub: string)
    requires sub != []
    ensures var i := LastIndex(s, sub);
            (i == -1 || OccursAt(s, sub, i)) && forall j: nat | i < j :: !OccursAt(s, sub, j)
    decreases |s|
  {
    if |s| >= |sub| && !OccursAt(s, sub, |s| - |sub|) {
      LastIndexMeans(s[..|s| - 1], sub);
      forall j: nat | j + |sub| < |s| ensures OccursAt(s[..|s| - 1], sub, j) == OccursAt(s, sub, j) {
        assert s[..|s| - 1][j..j + |sub|] == s[j..j + |sub|];
      }
    }
  }

  // strings.ToLower on one character, as far as it matters for ASCII patterns
  function Lower(c: char): char {
    if 'A' <= c <= 'Z' then c - 'A' + 'a' else if c == '\U{0130}' then 'i' else c
  }

  function ToLower(s: string): string {
    seq(|s|, i requires 0 <= i < |s| => Lower(s[i]))
  }

  /* ---- Numbers ---- */

  const MAX_INT := 0x7FFF_FFFF_FFFF_FFFF
  const MIN_INT := -0x8000_0000_0000_0000

  predicate IsDigit(c: char) {
    '0' <= c <= '9'
  }

  predicate AllDigits(s: string) {
    forall i | 0 <= i < |s| :: IsDigit(s[i])
  }

  function Number(s: string): (n: nat)
    requires AllDigits(s)
  {
    if s == [] then 0 else 10 * Number(s[..|s| - 1]) + (s[|s| - 1] - '0') as nat
  }

  // strconv.Atoi: an optional sign, decimal digits only, refused outside 64 bits
  function Atoi(s: string): Option<int> {
    var signed := s != [] && (s[0] == '-' || s[0] == '+');
    var digits := if signed then s[1..] else s;
    if digits == [] || !AllDigits(digits) then None
    else
      var n: int := if signed && s[0] == '-' then 0 - Number(digits) else Number(digits);
      if MIN_INT <= n <= MAX_INT then Some(n) else None
  }

  function Digit(n: nat): (c: char)
    requires n < 10
    ensures IsDigit(c) && (c - '0') as nat == n
  {
    '0' + n as char
  }

  // The decimal digits of a number, as fmt prints an int
  function Decimal(n: int): (s: string)
    decreases n < 0, if n < 0 then -n else n
  {
    if n < 0 then "-" + Decimal(-n)
    else if n < 10 then [Digit(n)]
    else Decimal(n / 10) + [Digit(n % 10)]
  }

  lemma {:induction false} DecimalDigits(n: nat)
    ensures Decimal(n) != [] && AllDigits(Decimal(n)) && Number(Decimal(n)) == n
  {
    var s := Decimal(n);
    if n < 10 {
      assert s[..|s| - 1] == [];
    } else {
      DecimalDigits(n / 10);
      assert s[..|s| - 1] == Decimal(n / 10);
    }
  }

  // Printing and reading a 64-bit number gives it back
  lemma AtoiOfDecimal(n: int)
    requires MIN_INT <= n <= MAX_INT
    ensures Atoi(Decimal(n)) == Some(n)
  {
    if n < 0 {
      DecimalDigits(-n);
      assert Decimal(n)[1..] == Decimal(-n);
    } else {
      DecimalDigits(n);
    }
  }

  lemma NumberText(n: nat)
    requires n <= MAX_INT
    ensures Decimal(n) != "" && '.' !in Decimal(n) && '-' !in Decimal(n) && Atoi(Decimal(n)) == Some(n)
  {
    DecimalDigits(n);
    AtoiOfDecimal(n);
    hide Decimal;
    hide Atoi;
  }
}
