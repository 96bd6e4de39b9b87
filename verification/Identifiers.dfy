/** Logins and slugs made from names: src/utils/translit.ts and the patterns of src/cli/admin.ts. */
module Identifiers {
  import opened Cardinality

  const EMPLOYEE_LOGIN_MAX: nat := 64
  const DEPARTMENT_SLUG_MAX: nat := 32

  predicate IsAlnum(c: char) {
    'a' <= c <= 'z' || '0' <= c <= '9'
  }

  predicate IsMark(c: char) {
    c == '.' || c == '_' || c == '-'
  }

  /** A first letter or digit and then letters, digits and the marks allowed, `maxLen` characters at most. */
  predicate IsId(s: string, maxLen: nat, dots: bool) {
    && 1 <= |s| <= maxLen && IsAlnum(s[0])
    && (forall i :: 0 <= i < |s| ==> IsAlnum(s[i]) || (IsMark(s[i]) && (s[i] == '.' ==> dots)))
  }

  /** The pattern SLUG. */
  predicate IsSlug(s: string) {
    IsId(s, DEPARTMENT_SLUG_MAX, false)
  }

  /** The pattern EMPLOYEE_LOGIN. */
  predicate IsLogin(s: string) {
    IsId(s, EMPLOYEE_LOGIN_MAX, true)
  }

  function Pow10(n: nat): nat {
    if n == 0 then 1 else 10 * Pow10(n - 1)
  }

  /** String(n) */
  function Decimal(n: nat): string {
    (if n < 10 then "" else Decimal(n / 10)) + ['0' + (n % 10) as char]
  }

  /** The number that a decimal writes. */
  function ValueOf(s: string): int {
    if s == "" then 0 else 10 * ValueOf(s[..|s| - 1]) + (s[|s| - 1] as int - '0' as int)
  }

  lemma {:induction false} DecimalReadsBack(n: nat)
    ensures ValueOf(Decimal(n)) == n
    ensures forall i :: 0 <= i < |Decimal(n)| ==> '0' <= Decimal(n)[i] <= '9'
  {
    if n >= 10 {
      DecimalReadsBack(n / 10);
      assert Decimal(n)[..|Decimal(n)| - 1] == Decimal(n / 10);
    }
  }

  lemma {:induction false} DecimalLength(n: nat, d: nat)
    requires d >= 1 && n < Pow10(d)
    ensures 1 <= |Decimal(n)| <= d
    ensures Pow10(d - 1) <= n ==> |Decimal(n)| == d
  {
    if n >= 10 {
      DecimalLength(n / 10, d - 1);
    } else if d >= 2 {
      assert Pow10(d - 1) == 10 * Pow10(d - 2) && Positive(d - 2);
    }
  }

  predicate Positive(n: nat)
    ensures Positive(n) && Pow10(n) >= 1
  {
    n == 0 || Positive(n - 1)
  }

  /** `s.slice(0, end)`: a negative end counts from the end of the string. */
  function SliceTo(s: string, end: int): string {
    if end >= |s| then s
    else if end >= 0 then s[..end]
    else if |s| + end >= 0 then s[..|s| + end]
    else ""
  }

  /** A prefix: of that length or the whole, or without as many characters as `end` is below zero. */
  lemma SliceToExactly(s: string, end: int)
    ensures SliceTo(s, end) <= s
    ensures end >= 0 ==> |SliceTo(s, end)| == end || (|s| < end && SliceTo(s, end) == s)
    ensures end < 0 ==> |SliceTo(s, end)| == |s| + end || (|s| + end < 0 && SliceTo(s, end) == "")
  {
  }

  /** `s.replace(/[._-]+$/, '')` */
  function WithoutLastMarks(s: string): string {
    if s != "" && IsMark(s[|s| - 1]) then WithoutLastMarks(s[..|s| - 1]) else s
  }

  /** The n-th name that uniqueId tries. */
  function Candidate(base: string, maxLen: nat, sep: string, n: nat): string {
    var suffix := sep + Decimal(n);
    WithoutLastMarks(SliceTo(base, maxLen - |suffix|)) + suffix
  }

  lemma {:induction false} LastMarksOnly(s: string)
    requires s != "" && IsAlnum(s[0])
    ensures 1 <= |WithoutLastMarks(s)| <= |s| && WithoutLastMarks(s) == s[..|WithoutLastMarks(s)|]
    ensures !IsMark(s[|WithoutLastMarks(s)| - 1]) && forall i :: |WithoutLastMarks(s)| <= i < |s| ==> IsMark(s[i])
  {
    if IsMark(s[|s| - 1]) {
      LastMarksOnly(s[..|s| - 1]);
    }
  }

  /** A candidate is as good an identifier as its base, while its suffix leaves room for a first letter. */
  lemma CandidateIsId(base: string, maxLen: nat, sep: string, n: nat, dots: bool)
    requires IsId(base, maxLen, dots) && (sep == "" || sep == "-") && |sep| + |Decimal(n)| < maxLen
    ensures IsId(Candidate(base, maxLen, sep, n), maxLen, dots)
  {
    hide Decimal, ValueOf, WithoutLastMarks;
    var suffix := sep + Decimal(n);
    var cut := SliceTo(base, maxLen - |suffix|);
    LastMarksOnly(cut);
    DecimalReadsBack(n);
    StemAndSuffix(base, WithoutLastMarks(cut), suffix, maxLen, dots);
  }

  lemma StemAndSuffix(base: string, stem: string, suffix: string, maxLen: nat, dots: bool)
    requires IsId(base, maxLen, dots) && 1 <= |stem| <= |base| && stem == base[..|stem|] && |stem| + |suffix| <= maxLen
    requires forall i :: 0 <= i < |suffix| ==> IsAlnum(suffix[i]) || suffix[i] == '-'
    ensures IsId(stem + suffix, maxLen, dots)
  {
    var id := stem + suffix;
    forall i | 0 <= i < |id|
      ensures IsAlnum(id[i]) || (IsMark(id[i]) && (id[i] == '.' ==> dots))
    {
      if i < |stem| {
        assert id[i] == base[i];
      } else {
        assert id[i] == suffix[i - |stem|];
      }
    }
    assert id[0] == base[0];
  }

  /** Numbers of equal length give different candidates; shorter and longer ones may coincide. */
  lemma SameLengthDiffers(base: string, maxLen: nat, sep: string, n: nat, m: nat)
    requires |Decimal(n)| == |Decimal(m)| && n != m
    ensures Candidate(base, maxLen, sep, n) != Candidate(base, maxLen, sep, m)
  {
    hide Decimal, ValueOf, WithoutLastMarks, SliceTo;
    DecimalReadsBack(n);
    DecimalReadsBack(m);
    var stem := WithoutLastMarks(SliceTo(base, maxLen - |sep + Decimal(n)|));
    var c, e := Candidate(base, maxLen, sep, n), Candidate(base, maxLen, sep, m);
    assert c[|stem| + |sep|..] == Decimal(n) && e[|stem| + |sep|..] == Decimal(m);
  }

  /** How numbers of different length coincide: the digit that is cut off reappears in the number. */
  lemma CandidatesCanCoincide(base: string, maxLen: nat)
    requires |base| == maxLen >= 3 && base[maxLen - 2] == '1' && IsAlnum(base[maxLen - 3])
    ensures Candidate(base, maxLen, "", 2) == Candidate(base, maxLen, "", 12)
  {
    assert Decimal(2) == "2" && Decimal(12) == "12";
    assert base[..maxLen - 1] == base[..maxLen - 2] + "1";
  }

  /** The candidates with `d` digits and a number below `n`. */
  ghost function Tried(base: string, maxLen: nat, sep: string, d: nat, n: nat): set<string>
    requires d >= 1
  {
    if n <= Pow10(d - 1) then {} else Tried(base, maxLen, sep, d, n - 1) + {Candidate(base, maxLen, sep, n - 1)}
  }

  lemma {:induction false} TriedIsNew(base: string, maxLen: nat, sep: string, d: nat, n: nat, m: nat)
    requires d >= 1 && Pow10(d - 1) <= n <= m < Pow10(d)
    ensures Candidate(base, maxLen, sep, m) !in Tried(base, maxLen, sep, d, n)
  {
    if n > Pow10(d - 1) {
      TriedIsNew(base, maxLen, sep, d, n - 1, m);
      DecimalLength(n - 1, d);
      DecimalLength(m, d);
      SameLengthDiffers(base, maxLen, sep, n - 1, m);
    }
  }

  lemma TriedGrows(base: string, maxLen: nat, sep: string, d: nat, n: nat)
    requires d >= 1
    ensures n < Pow10(d - 1) ==> Tried(base, maxLen, sep, d, n + 1) == {}
    ensures Pow10(d - 1) <= n ==>
              Tried(base, maxLen, sep, d, n + 1) == Tried(base, maxLen, sep, d, n) + {Candidate(base, maxLen, sep, n)}
    ensures Pow10(d - 1) <= n < Pow10(d) ==> |Tried(base, maxLen, sep, d, n + 1)| == |Tried(base, maxLen, sep, d, n)| + 1
  {
    if Pow10(d - 1) <= n < Pow10(d) {
      TriedIsNew(base, maxLen, sep, d, n, n);
    }
  }

  lemma TenAtLeast(d: nat)
    requires d >= 1
    ensures Pow10(d) >= 10
  {
    assert Pow10(d) == 10 * Pow10(d - 1) && Positive(d - 1);
  }

  lemma NothingTried(base: string, maxLen: nat, sep: string, d: nat, n: nat)
    requires d >= 1 && n <= Pow10(d - 1)
    ensures Tried(base, maxLen, sep, d, n) == {}
  {
  }

  /**
   uniqueId: the base if it is free, otherwise the first free candidate, found before the numbers
   reach `d + 1` digits. Different numbers can give the same candidate, so it is not enough that there
   are more numbers than names taken: there must be more numbers of `d` digits.
   */
  method UniqueId(base: string, maxLen: nat, sep: string, taken: set<string>, ghost d: nat) returns (id: string)
    requires d >= 2 && Pow10(d - 1) + |taken| < Pow10(d)
    ensures id !in taken
    ensures base !in taken ==> id == base
    ensures base in taken ==>
      exists n: nat :: 2 <= n < Pow10(d) && id == Candidate(base, maxLen, sep, n)
        && forall m: nat :: 2 <= m < n ==> Candidate(base, maxLen, sep, m) in taken
  {
    if base !in taken {
      return base;
    }
    hide Candidate, Tried, Pow10;
    TenAtLeast(d - 1);
    var n := 2;
    NothingTried(base, maxLen, sep, d, n);
    id := Candidate(base, maxLen, sep, n);
    while id in taken
      invariant 2 <= n <= Pow10(d - 1) + |taken| && id == Candidate(base, maxLen, sep, n)
      invariant forall m: nat :: 2 <= m < n ==> Candidate(base, maxLen, sep, m) in taken
      invariant Tried(base, maxLen, sep, d, n) <= taken
      invariant if n >= Pow10(d - 1) then |Tried(base, maxLen, sep, d, n)| == n - Pow10(d - 1)
                else Tried(base, maxLen, sep, d, n) == {}
      decreases Pow10(d - 1) + |taken| - n
    {
      TriedGrows(base, maxLen, sep, d, n);
      if n + 1 == Pow10(d - 1) {
        NothingTried(base, maxLen, sep, d, n + 1);
      }
      SubsetSize(Tried(base, maxLen, sep, d, n + 1), taken);
      n := n + 1;
      id := Candidate(base, maxLen, sep, n);
    }
  }

  /** RU_LAT, for one lower-case character: a character that is not in the table stays. */
  function Latin(c: char): string {
    match c {
      case 'а' => "a"   case 'б' => "b"   case 'в' => "v"    case 'г' => "g"  case 'д' => "d"  case 'е' => "e"
      case 'ё' => "e"   case 'ж' => "zh"  case 'з' => "z"    case 'и' => "i"  case 'й' => "y"  case 'к' => "k"
      case 'л' => "l"   case 'м' => "m"   case 'н' => "n"    case 'о' => "o"  case 'п' => "p"  case 'р' => "r"
      case 'с' => "s"   case 'т' => "t"   case 'у' => "u"    case 'ф' => "f"  case 'х' => "kh" case 'ц' => "ts"
      case 'ч' => "ch"  case 'ш' => "sh"  case 'щ' => "shch" case 'ъ' => ""   case 'ы' => "y"  case 'ь' => ""
      case 'э' => "e"   case 'ю' => "yu"  case 'я' => "ya"
      case _ => [c]
    }
  }

  /** translit, of a text that is in lower case already. */
  function Translit(lower: string): string {
    if lower == "" then "" else Latin(lower[0]) + Translit(lower[1..])
  }

  lemma {:induction false} TranslitAppend(a: string, b: string)
    ensures Translit(a + b) == Translit(a) + Translit(b)
  {
    hide Latin;
    if a == "" {
      assert a + b == b;
    } else {
      assert (a + b)[1..] == a[1..] + b;
      TranslitAppend(a[1..], b);
    }
  }

  lemma TranslitOne(c: char)
    ensures Translit([c]) == Latin(c)
  {
    hide Latin;
    assert [c][1..] == "";
  }

  /** The table has the Russian letters and writes them in Latin ones. */
  lemma LettersInLatin(c: char)
    ensures 'а' <= c <= 'я' || c == 'ё' ==> forall i :: 0 <= i < |Latin(c)| ==> 'a' <= Latin(c)[i] <= 'z' && IsAlnum(Latin(c)[i])
    ensures !('а' <= c <= 'я' || c == 'ё') ==> Latin(c) == [c]
  {
  }

  function Kept(w: string): string {
    if w == "" then ""
    else (if IsAlnum(w[0]) || w[0] == '-' then [w[0]] else "") + Kept(w[1..])
  }

  function WithoutFirstDashes(s: string): string {
    if s != "" && s[0] == '-' then WithoutFirstDashes(s[1..]) else s
  }

  function WithoutLastDashes(s: string): string {
    if s != "" && s[|s| - 1] == '-' then WithoutLastDashes(s[..|s| - 1]) else s
  }

  /** The lower-case words of a name, transliterated and cleaned; the empty ones go. */
  function Cleaned(words: seq<string>): seq<string> {
    if words == [] then []
    else
      var w := WithoutLastDashes(WithoutFirstDashes(Kept(Translit(words[0]))));
      (if w == "" then [] else [w]) + Cleaned(words[1..])
  }

  function Initials(words: seq<string>): string
    requires forall i :: 0 <= i < |words| ==> words[i] != ""
  {
    if |words| == 0 then "" else if |words| == 1 then [words[0][0]] else [words[0][0], words[1][0]]
  }

  /** A nonempty word of letters, digits and inner dashes. */
  predicate IsWord(w: string) {
    && w != "" && IsAlnum(w[0])
    && (forall i :: 0 <= i < |w| ==> IsAlnum(w[i]) || w[i] == '-')
  }

  lemma {:induction false} KeptChars(w: string)
    ensures forall i :: 0 <= i < |Kept(w)| ==> IsAlnum(Kept(w)[i]) || Kept(w)[i] == '-'
  {
    if w != "" {
      KeptChars(w[1..]);
    }
  }

  lemma {:induction false} FirstDashesOnly(s: string)
    ensures |WithoutFirstDashes(s)| <= |s| && WithoutFirstDashes(s) == s[|s| - |WithoutFirstDashes(s)|..]
    ensures WithoutFirstDashes(s) != "" ==> WithoutFirstDashes(s)[0] != '-'
    ensures forall i :: 0 <= i < |s| - |WithoutFirstDashes(s)| ==> s[i] == '-'
  {
    if s != "" && s[0] == '-' {
      FirstDashesOnly(s[1..]);
      assert forall i :: 0 < i < |s| ==> s[i] == s[1..][i - 1];
    }
  }

  lemma {:induction false} LastDashesOnly(s: string)
    ensures |WithoutLastDashes(s)| <= |s| && WithoutLastDashes(s) == s[..|WithoutLastDashes(s)|]
    ensures s != "" && s[0] != '-' ==> WithoutLastDashes(s) != ""
    ensures WithoutLastDashes(s) != "" ==> s[|WithoutLastDashes(s)| - 1] != '-'
    ensures forall i :: |WithoutLastDashes(s)| <= i < |s| ==> s[i] == '-'
  {
    if s != "" && s[|s| - 1] == '-' {
      LastDashesOnly(s[..|s| - 1]);
    }
  }

  lemma {:induction false} CleanedAreWords(words: seq<string>)
    ensures forall i :: 0 <= i < |Cleaned(words)| ==> IsWord(Cleaned(words)[i])
  {
    if words != [] {
      CleanedAreWords(words[1..]);
      hide Latin, Translit;
      var latin := Translit(words[0]);
      KeptChars(latin);
      FirstDashesOnly(Kept(latin));
      LastDashesOnly(WithoutFirstDashes(Kept(latin)));
    }
  }

  /** Letters, digits and dashes stay in their order, everything else goes. */
  lemma {:induction false} KeptAppend(a: string, b: string)
    ensures Kept(a + b) == Kept(a) + Kept(b)
  {
    hide IsAlnum;
    if a == "" {
      assert a + b == b;
    } else {
      assert (a + b)[1..] == a[1..] + b;
      KeptAppend(a[1..], b);
      assert Kept(a)[..] == (if IsAlnum(a[0]) || a[0] == '-' then [a[0]] else "") + Kept(a[1..]);
    }
  }

  lemma KeptOne(c: char)
    ensures Kept([c]) == if IsAlnum(c) || c == '-' then [c] else ""
  {
  }

  /** The part of a text between the dashes at its ends. */
  ghost predicate Undashed(part: string, whole: string) {
    exists i, j :: 0 <= i <= j <= |whole| && part == whole[i..j] && AllDashes(whole[..i]) && AllDashes(whole[j..])
      && (part != "" ==> part[0] != '-' && part[|part| - 1] != '-')
  }

  predicate AllDashes(s: string) {
    forall i :: 0 <= i < |s| ==> s[i] == '-'
  }

  lemma UndashedBoth(s: string)
    ensures Undashed(WithoutLastDashes(WithoutFirstDashes(s)), s)
  {
    var right := WithoutFirstDashes(s);
    var part := WithoutLastDashes(right);
    FirstDashesOnly(s);
    LastDashesOnly(right);
    hide WithoutFirstDashes, WithoutLastDashes;
    var i := |s| - |right|;
    var j := i + |part|;
    assert part == s[i..j] && s[j..] == right[|part|..];
    assert AllDashes(s[..i]) && AllDashes(s[j..]);
  }

  /** A word of a name: transliterated, without other characters, and without the dashes at its ends. */
  lemma CleanedExactly(word: string, rest: seq<string>)
    ensures exists w :: Undashed(w, Kept(Translit(word))) && Cleaned([word] + rest) == (if w == "" then [] else [w]) + Cleaned(rest)
  {
    hide Latin, Translit, Kept;
    UndashedBoth(Kept(Translit(word)));
    assert ([word] + rest)[1..] == rest;
    hide Undashed, WithoutFirstDashes, WithoutLastDashes;
  }

  /** The surname, cut so that a dot and the initials fit. */
  function LoginOf(surname: string, initials: string): string {
    var room := EMPLOYEE_LOGIN_MAX - if initials == "" then 0 else |initials| + 1;
    var stem := WithoutLastDashes(SliceTo(surname, room));
    if initials == "" then stem else stem + "." + initials
  }

  /** loginFromFio, for the words of a name in lower case. */
  function LoginFromFio(words: seq<string>): (login: string)
    ensures IsLogin(login)
  {
    var clean := Cleaned(words);
    CleanedAreWords(words);
    if clean == [] then "emp"
    else
      LoginOfIsLogin(clean[0], Initials(clean[1..]));
      LoginOf(clean[0], Initials(clean[1..]))
  }

  lemma LoginOfIsLogin(surname: string, initials: string)
    requires IsWord(surname) && |initials| <= 2 && (forall i :: 0 <= i < |initials| ==> IsAlnum(initials[i]))
    ensures IsLogin(LoginOf(surname, initials))
  {
    var room := EMPLOYEE_LOGIN_MAX - if initials == "" then 0 else |initials| + 1;
    LastDashesOnly(SliceTo(surname, room));
    var stem := WithoutLastDashes(SliceTo(surname, room));
    var login := LoginOf(surname, initials);
    forall i | 0 <= i < |login|
      ensures IsAlnum(login[i]) || IsMark(login[i])
    {
      if i < |stem| {
        assert login[i] == surname[i];
      } else if i > |stem| {
        assert login[i] == initials[i - |stem| - 1];
      }
    }
    assert login[0] == surname[0];
  }

  predicate IsStem(stem: string, dashes: string, cut: string) {
    cut == stem + dashes && stem != "" && stem[|stem| - 1] != '-' && AllDashes(dashes)
  }

  /** A surname that fits stays; one that is too long is cut, and dashes before the cut go. */
  lemma LoginExactly(surname: string, initials: string)
    requires IsWord(surname) && |initials| <= 2
    ensures var tail := if initials == "" then "" else "." + initials;
            var cut := if |surname| + |tail| <= 64 then surname else surname[..64 - |tail|];
            exists stem, dashes :: IsStem(stem, dashes, cut) && LoginOf(surname, initials) == stem + tail
  {
    var tail := if initials == "" then "" else "." + initials;
    var cut := SliceTo(surname, 64 - |tail|);
    CutAtDashes(cut);
    assert LoginOf(surname, initials) == WithoutLastDashes(cut) + tail;
    hide LoginOf, WithoutLastDashes, IsStem, IsWord;
  }

  lemma CutAtDashes(cut: string)
    requires cut != "" && cut[0] != '-'
    ensures exists dashes :: IsStem(WithoutLastDashes(cut), dashes, cut)
  {
    LastDashesOnly(cut);
    hide WithoutLastDashes;
    var stem := WithoutLastDashes(cut);
    assert IsStem(stem, cut[|stem|..], cut);
  }

  /** The login is that of the first word and the first letters of the next two. */
  lemma LoginOfWords(words: seq<string>)
    ensures var clean := Cleaned(words);
            && (forall i :: 0 <= i < |clean| ==> clean[i] != "")
            && LoginFromFio(words) == (if |clean| == 0 then "emp"
                                       else if |clean| == 1 then LoginOf(clean[0], "")
                                       else if |clean| == 2 then LoginOf(clean[0], [clean[1][0]])
                                       else LoginOf(clean[0], [clean[1][0], clean[2][0]]))
  {
    CleanedAreWords(words);
    hide Cleaned, LoginOf, IsId;
  }

  /** Every run of other characters becomes one dash; `inRun` when the dash is already there. */
  function Dashed(s: string, inRun: bool): string {
    if s == "" then ""
    else if IsAlnum(s[0]) then [s[0]] + Dashed(s[1..], false)
    else (if inRun then "" else "-") + Dashed(s[1..], true)
  }

  lemma {:induction false} DashedChars(s: string, inRun: bool)
    ensures forall i :: 0 <= i < |Dashed(s, inRun)| ==> IsAlnum(Dashed(s, inRun)[i]) || Dashed(s, inRun)[i] == '-'
    decreases |s|
  {
    if s != "" {
      DashedChars(s[1..], !IsAlnum(s[0]));
    }
  }

  predicate AllAlnum(s: string) {
    forall i :: 0 <= i < |s| ==> IsAlnum(s[i])
  }

  predicate NoAlnum(s: string) {
    forall i :: 0 <= i < |s| ==> !IsAlnum(s[i])
  }

  /** A word stays. */
  lemma {:induction false} DashedWord(word: string, rest: string, inRun: bool)
    requires AllAlnum(word) && word != ""
    ensures Dashed(word + rest, inRun) == word + Dashed(rest, false)
  {
    assert (word + rest)[1..] == word[1..] + rest;
    if |word| > 1 {
      DashedWord(word[1..], rest, false);
    } else {
      assert word[1..] + rest == rest;
    }
  }

  /** A gap becomes one dash, whatever its characters; behind the dash nothing is left of it. */
  lemma {:induction false} DashedGap(gap: string, rest: string, inRun: bool)
    requires NoAlnum(gap) && gap != ""
    ensures Dashed(gap + rest, inRun) == (if inRun then "" else "-") + Dashed(rest, true)
  {
    assert (gap + rest)[1..] == gap[1..] + rest;
    if |gap| > 1 {
      DashedGap(gap[1..], rest, true);
    } else {
      assert gap[1..] + rest == rest;
    }
  }

  function SlugOf(latin: string): string {
    var slug := WithoutLastDashes(SliceTo(WithoutFirstDashes(Dashed(latin, false)), DEPARTMENT_SLUG_MAX));
    if slug == "" then "dept" else slug
  }

  lemma SlugOfIsSlug(latin: string)
    ensures IsSlug(SlugOf(latin))
  {
    var dashed := Dashed(latin, false);
    var rest := WithoutFirstDashes(dashed);
    var cut := SliceTo(rest, DEPARTMENT_SLUG_MAX);
    DashedChars(latin, false);
    FirstDashesOnly(dashed);
    LastDashesOnly(cut);
    hide Dashed, WithoutFirstDashes, WithoutLastDashes;
  }

  predicate BeginsWithDashes(text: string, dashes: string, rest: string) {
    text == dashes + rest && AllDashes(dashes) && (rest != "" ==> rest[0] != '-')
  }

  /** The slug of what comes after the first dashes: cut to size and without the dashes before the cut. */
  ghost predicate IsCutSlug(slug: string, rest: string) {
    if rest == "" then slug == "dept"
    else
      var cut := if |rest| <= 32 then rest else rest[..32];
      exists dashes :: IsStem(slug, dashes, cut)
  }

  /** A slug is the dashed name, without dashes at its beginning, cut to size and without dashes at its end. */
  lemma SlugExactly(lower: string)
    ensures exists dashes, rest :: BeginsWithDashes(Dashed(Translit(lower), false), dashes, rest) && IsCutSlug(SlugFromName(lower), rest)
  {
    var dashed := Dashed(Translit(lower), false);
    hide Latin, Translit, Dashed, IsId, IsStem;
    var rest := WithoutFirstDashes(dashed);
    FirstDashesOnly(dashed);
    assert BeginsWithDashes(dashed, dashed[..|dashed| - |rest|], rest);
    hide BeginsWithDashes, WithoutFirstDashes;
    var cut := SliceTo(rest, DEPARTMENT_SLUG_MAX);
    if cut != "" {
      CutAtDashes(cut);
      StemIsSome(cut);
    }
  }

  lemma StemIsSome(cut: string)
    requires cut != "" && cut[0] != '-'
    ensures WithoutLastDashes(cut) != ""
  {
    LastDashesOnly(cut);
  }

  /** slugFromName, for a name in lower case. */
  function SlugFromName(lower: string): (slug: string)
    ensures IsSlug(slug)
  {
    SlugOfIsSlug(Translit(lower));
    SlugOf(Translit(lower))
  }

  /** No table fills up the identifiers of this length: those whose numbers have as many digits as fit. */
  predicate Spacious(size: nat, maxLen: nat, sep: string)
    requires maxLen >= |sep| + 3
  {
    Pow10(maxLen - |sep| - 2) + size < Pow10(maxLen - |sep| - 1)
  }

  /** The base if it is free, otherwise the first free candidate. */
  ghost predicate FirstFree(id: string, base: string, maxLen: nat, sep: string, taken: set<string>) {
    && id !in taken && (base !in taken ==> id == base)
    && (base in taken ==> exists n: nat :: n >= 2 && id == Candidate(base, maxLen, sep, n) && AllTaken(base, maxLen, sep, n, taken))
  }

  ghost predicate AllTaken(base: string, maxLen: nat, sep: string, n: nat, taken: set<string>) {
    forall m: nat :: 2 <= m < n ==> Candidate(base, maxLen, sep, m) in taken
  }

  /** A candidate is the base, cut if it is too long and then without marks at its end, the separator and the number. */
  lemma CandidateExactly(base: string, maxLen: nat, sep: string, n: nat)
    requires base != "" && IsAlnum(base[0]) && |sep + Decimal(n)| < maxLen
    ensures exists m :: 0 < m <= |base| && Candidate(base, maxLen, sep, n) == base[..m] + sep + Decimal(n)
              && m + |sep + Decimal(n)| <= maxLen && !IsMark(base[m - 1])
              && forall k :: m <= k < |base| && k + |sep + Decimal(n)| < maxLen ==> IsMark(base[k])
  {
    hide Decimal;
    var cut := SliceTo(base, maxLen - |sep + Decimal(n)|);
    LastMarksOnly(cut);
    var m := |WithoutLastMarks(cut)|;
    assert forall k :: 0 <= k < |cut| ==> cut[k] == base[k];
    assert WithoutLastMarks(cut) == base[..m];
    assert Candidate(base, maxLen, sep, n) == base[..m] + (sep + Decimal(n));
  }

  /** An identifier from a valid base: free and valid. */
  method FreshId(base: string, maxLen: nat, sep: string, taken: set<string>, ghost dots: bool) returns (id: string)
    requires IsId(base, maxLen, dots) && (sep == "" || sep == "-") && maxLen >= |sep| + 3
    requires Spacious(|taken|, maxLen, sep)
    ensures FirstFree(id, base, maxLen, sep, taken) && IsId(id, maxLen, dots)
  {
    ghost var d := maxLen - |sep| - 1;
    hide Candidate, IsId;
    id := UniqueId(base, maxLen, sep, taken, d);
    if base in taken {
      ghost var n: nat :| 2 <= n < Pow10(d) && id == Candidate(base, maxLen, sep, n)
        && forall m: nat :: 2 <= m < n ==> Candidate(base, maxLen, sep, m) in taken;
      assert AllTaken(base, maxLen, sep, n, taken);
      hide AllTaken;
      DecimalLength(n, d);
      CandidateIsId(base, maxLen, sep, n, dots);
    }
  }
}
