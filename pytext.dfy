/** The few Python string operations the bot's handlers rely on, with the
    semantics CPython gives them: `str.strip()`, `str.lower()`, `int(str)`,
    `str(int)`, `str.split(sep)`, `sep.join(...)` and `str.startswith`. */
module PyText {

  datatype Option<+T> = None | Some(value: T)

  // ---------------------------------------------------------------- strip

  /** The characters `str.isspace()` accepts, i.e. the ones `str.strip()`
      with no argument removes. */
  predicate IsSpace(c: char) {
    || c == ' ' || ('\t' <= c <= '\r') || ('\U{1C}' <= c <= '\U{1F}')
    || c == '\U{85}' || c == '\U{A0}' || c == '\U{1680}'
    || ('\U{2000}' <= c <= '\U{200A}') || c == '\U{2028}' || c == '\U{2029}'
    || c == '\U{202F}' || c == '\U{205F}' || c == '\U{3000}'
  }

  /** The whitespace `int()` skips around a number. CPython's `int()` leaves
      an all-ASCII text as it is and skips only the six C whitespace
      characters, and it first turns every non-ASCII whitespace character
      into a space; so the ASCII separators U+001C to U+001F, which
      `str.strip()` removes, are not skipped by `int()`. */
  predicate IsIntSpace(c: char) {
    IsSpace(c) && !('\U{1C}' <= c <= '\U{1F}')
  }

  /** How many characters `sp` accepts at the start of `s`. */
  function Leading(s: string, sp: char -> bool): (n: nat)
    ensures n <= |s|
    ensures forall k :: 0 <= k < n ==> sp(s[k])
    ensures n == |s| || !sp(s[n])
  {
    if s == [] || !sp(s[0]) then 0 else 1 + Leading(s[1..], sp)
  }

  /** How many characters `sp` accepts at the end of `s`. */
  function Trailing(s: string, sp: char -> bool): (n: nat)
    ensures n <= |s|
    ensures forall k :: |s| - n <= k < |s| ==> sp(s[k])
    ensures n == |s| || !sp(s[|s| - n - 1])
  {
    if s == [] || !sp(s[|s| - 1]) then 0 else 1 + Trailing(s[..|s| - 1], sp)
  }

  /** `s.lstrip()` for the characters `sp` accepts. */
  function TrimStart(s: string, sp: char -> bool): (r: string)
    ensures |r| <= |s| && r == s[|s| - |r|..]
    ensures r == [] || !sp(r[0])
    ensures forall k :: 0 <= k < |s| - |r| ==> sp(s[k])
  {
    s[Leading(s, sp)..]
  }

  /** `s.rstrip()` for the characters `sp` accepts. */
  function TrimEnd(s: string, sp: char -> bool): (r: string)
    ensures |r| <= |s| && r == s[..|r|]
    ensures r == [] || !sp(r[|r| - 1])
    ensures forall k :: |r| <= k < |s| ==> sp(s[k])
  {
    s[..|s| - Trailing(s, sp)]
  }

  /** Stripping the characters `sp` accepts from both ends: the result is the
      infix of `s` at `Leading(s, sp)`, everything cut off on either side is
      whitespace, and the result neither starts nor ends with whitespace.
      `StripIsTrims` shows it is `rstrip` applied to the result of `lstrip`. */
  function StripWith(s: string, sp: char -> bool): (r: string)
    ensures Leading(s, sp) + |r| <= |s|
    ensures r == s[Leading(s, sp)..Leading(s, sp) + |r|]
    ensures forall k :: 0 <= k < Leading(s, sp) ==> sp(s[k])
    ensures forall k :: Leading(s, sp) + |r| <= k < |s| ==> sp(s[k])
    ensures r == [] || (!sp(r[0]) && !sp(r[|r| - 1]))
    ensures (forall k :: 0 <= k < |s| ==> !sp(s[k])) ==> r == s
  {
    var a := Leading(s, sp);
    var t := s[a..];
    var r := t[..|t| - Trailing(t, sp)];
    InfixOfSuffix(s, sp, a, t, r);
    r
  }

  /** `s.strip()` is `s.lstrip().rstrip()`. */
  lemma StripIsTrims(s: string, sp: char -> bool)
    ensures StripWith(s, sp) == TrimEnd(TrimStart(s, sp), sp)
  {
  }

  /** The facts about two trims, for any sequence and predicate: `t` is the
      suffix of `s` left after dropping `a` elements that satisfy `p`, and
      `r` is the prefix of `t` left after dropping a tail that satisfies `p`. */
  lemma InfixOfSuffix<T>(s: seq<T>, p: T -> bool, a: nat, t: seq<T>, r: seq<T>)
    requires a <= |s| && t == s[a..]
    requires forall k :: 0 <= k < a ==> p(s[k])
    requires t == [] || !p(t[0])
    requires |r| <= |t| && r == t[..|r|]
    requires forall k :: |r| <= k < |t| ==> p(t[k])
    requires r == [] || !p(r[|r| - 1])
    ensures a + |r| <= |s| && r == s[a..a + |r|]
    ensures forall k :: 0 <= k < a ==> p(s[k])
    ensures forall k :: a + |r| <= k < |s| ==> p(s[k])
    ensures r == [] || (!p(r[0]) && !p(r[|r| - 1]))
    ensures (forall k :: 0 <= k < |s| ==> !p(s[k])) ==> r == s
  {
    forall k | a + |r| <= k < |s| ensures p(s[k]) {
      assert s[k] == t[k - a];
    }
    if r != [] {
      assert r[0] == t[0];
    }
    if forall k :: 0 <= k < |s| ==> !p(s[k]) {
      assert s == [] || !p(s[0]);
      assert s == [] || !p(s[|s| - 1]);
      assert t == [] || t[|t| - 1] == s[|s| - 1];
    }
  }

  /** `s.strip()`. */
  function Strip(s: string): string {
    StripWith(s, IsSpace)
  }

  // ---------------------------------------------------------------- lower

  /** `c.lower()` for the Latin and Cyrillic capitals; every other character
      is returned unchanged. */
  function LowerChar(c: char): char {
    if 'A' <= c <= 'Z' then (c as int + 32) as char
    else if 'А' <= c <= 'Я' then (c as int + 32) as char
    else if 'Ѐ' <= c <= 'Џ' then (c as int + 80) as char
    else c
  }

  /** `s.lower()`, character by character. */
  function Lower(s: string): (r: string)
    ensures |r| == |s|
    ensures forall k :: 0 <= k < |s| ==> r[k] == LowerChar(s[k])
  {
    if s == [] then [] else [LowerChar(s[0])] + Lower(s[1..])
  }

  /** The upper-case counterpart of `LowerChar`, for the same two alphabets. */
  function UpperChar(c: char): char {
    if 'a' <= c <= 'z' then (c as int - 32) as char
    else if 'а' <= c <= 'я' then (c as int - 32) as char
    else if 'ѐ' <= c <= 'џ' then (c as int - 80) as char
    else c
  }

  /** `s.capitalize()`: the first character upper-cased, the rest lower-cased. */
  function Capitalize(s: string): (r: string)
    ensures |r| == |s|
    ensures |s| > 0 ==> r[0] == UpperChar(s[0])
    ensures forall k :: 1 <= k < |s| ==> r[k] == LowerChar(s[k])
  {
    if s == [] then [] else [UpperChar(s[0])] + Lower(s[1..])
  }

  /** Capitalising changes only the case: lower-casing undoes it. */
  lemma LowerOfCapitalize(s: string)
    ensures Lower(Capitalize(s)) == Lower(s)
  {
    if s != [] {
      var c := s[0];
      assert LowerChar(UpperChar(c)) == LowerChar(c);
      assert Lower(Capitalize(s))[0] == Lower(s)[0];
    }
  }

  // ---------------------------------------------------------------- int

  predicate IsDigit(c: char) { '0' <= c <= '9' }

  function DigitValue(c: char): nat
    requires IsDigit(c)
  {
    c as int - '0' as int
  }

  function DigitChar(d: nat): (c: char)
    requires d < 10
    ensures IsDigit(c) && DigitValue(c) == d
  {
    ('0' as int + d) as char
  }

  /** The value of a string of decimal digits, most significant first. */
  function DigitsValue(s: string): nat
    requires forall k :: 0 <= k < |s| ==> IsDigit(s[k])
  {
    if s == [] then 0 else DigitsValue(s[..|s| - 1]) * 10 + DigitValue(s[|s| - 1])
  }

  /** Digits grouped by single underscores, as `int()` accepts them in base 10:
      non-empty, starting and ending with a digit, no two underscores in a row. */
  predicate WellFormedDigits(s: string) {
    && |s| > 0
    && IsDigit(s[0]) && IsDigit(s[|s| - 1])
    && (forall k :: 0 <= k < |s| ==> IsDigit(s[k]) || s[k] == '_')
    && (forall k :: 0 <= k < |s| - 1 ==> IsDigit(s[k]) || IsDigit(s[k + 1]))
  }

  function DropUnderscores(s: string): (r: string)
    requires forall k :: 0 <= k < |s| ==> IsDigit(s[k]) || s[k] == '_'
    ensures forall k :: 0 <= k < |r| ==> IsDigit(r[k])
    ensures |r| <= |s|
  {
    if s == [] then []
    else if s[0] == '_' then DropUnderscores(s[1..])
    else [s[0]] + DropUnderscores(s[1..])
  }

  function ParseDigits(s: string): Option<nat> {
    if WellFormedDigits(s) then Some(DigitsValue(DropUnderscores(s))) else None
  }

  /** An optional sign followed by digits, nothing around them. */
  function ParseSigned(t: string): Option<int> {
    if t != [] && (t[0] == '+' || t[0] == '-') then
      match ParseDigits(t[1..])
      case Some(n) => var v: int := n; Some(if t[0] == '-' then -v else v)
      case None => None
    else
      match ParseDigits(t)
      case Some(n) => Some(n)
      case None => None
  }

  /** The texts `int()` accepts once the surrounding whitespace is gone. */
  predicate SignedDigits(t: string) {
    || WellFormedDigits(t)
    || (t != [] && (t[0] == '+' || t[0] == '-') && WellFormedDigits(t[1..]))
  }

  /** `int(s)` in base 10: the whitespace `int()` skips is dropped from both
      ends, then an optional sign and a group of digits must remain;
      anything else is a `ValueError` (None). */
  function ParseInt(s: string): (r: Option<int>)
    ensures r.Some? <==> SignedDigits(StripWith(s, IsIntSpace))
    ensures r.Some? && r.value < 0 ==> StripWith(s, IsIntSpace)[0] == '-'
  {
    ParseSigned(StripWith(s, IsIntSpace))
  }

  /** `str.strip()` removes the file separator U+001C ... */
  lemma StripRemovesSeparator()
    ensures Strip("\U{1C}5") == "5"
  {
    var s := "\U{1C}5";
    assert Leading(s[1..], IsSpace) == 0;
    assert Leading(s, IsSpace) == 1;
    assert TrimStart(s, IsSpace) == "5";
    assert Trailing("5", IsSpace) == 0;
    assert TrimEnd("5", IsSpace) == "5";
  }

  /** ... but `int()` does not skip it, so it refuses the text ... */
  lemma IntRejectsSeparator()
    ensures ParseInt("\U{1C}5") == None
  {
    assert TrimStart("\U{1C}5", IsIntSpace) == "\U{1C}5";
    assert !SignedDigits("\U{1C}5");
  }

  /** ... while it does skip a no-break space U+00A0. */
  lemma IntSkipsNoBreakSpace()
    ensures ParseInt("\U{A0}5") == Some(5)
  {
    assert TrimStart("\U{A0}5", IsIntSpace) == "5";
    assert WellFormedDigits("5") && DigitsValue(DropUnderscores("5")) == 5;
  }

  // ---------------------------------------------------------------- str(int)

  /** Decimal digits of a natural number, without leading zeros. */
  function NatToString(n: nat): (r: string)
    ensures |r| > 0
    ensures forall k :: 0 <= k < |r| ==> IsDigit(r[k])
    decreases n
  {
    if n < 10 then [DigitChar(n)] else NatToString(n / 10) + [DigitChar(n % 10)]
  }

  /** `str(n)` for a Python int. */
  function IntToString(n: int): (r: string)
    ensures |r| > 0
    ensures forall k :: 0 <= k < |r| ==> IsDigit(r[k]) || r[k] == '-'
  {
    if n < 0 then "-" + NatToString(-n) else NatToString(n)
  }

  lemma {:induction false} NatToStringValue(n: nat)
    ensures DigitsValue(NatToString(n)) == n
    decreases n
  {
    if n >= 10 {
      NatToStringValue(n / 10);
      var s := NatToString(n);
      assert s[..|s| - 1] == NatToString(n / 10);
    }
  }

  lemma DropUnderscoresOfDigits(s: string)
    requires forall k :: 0 <= k < |s| ==> IsDigit(s[k])
    ensures DropUnderscores(s) == s
  {
  }

  lemma ParseDigitsOfNatToString(m: nat)
    ensures ParseDigits(NatToString(m)) == Some(m)
  {
    var digits := NatToString(m);
    DropUnderscoresOfDigits(digits);
    NatToStringValue(m);
    assert WellFormedDigits(digits);
  }

  /** `str(n)` holds no whitespace, so `int()` parses it as it stands. */
  lemma ParseIntOfIntToStringUnstripped(n: int)
    ensures ParseInt(IntToString(n)) == ParseSigned(IntToString(n))
  {
    var s := IntToString(n);
    forall k | 0 <= k < |s| ensures !IsIntSpace(s[k]) {
      assert IsDigit(s[k]) || s[k] == '-';
    }
  }

  lemma ParseSignedOfNegative(n: int)
    requires n < 0
    ensures ParseSigned(IntToString(n)) == Some(n)
  {
    var s := IntToString(n);
    ParseDigitsOfNatToString(-n);
    assert s[1..] == NatToString(-n);
  }

  lemma ParseSignedOfNatural(n: int)
    requires n >= 0
    ensures ParseSigned(IntToString(n)) == Some(n)
  {
    var s := IntToString(n);
    ParseDigitsOfNatToString(n);
    assert IsDigit(s[0]);
  }

  /** `int(str(n)) == n`: the parser reads back every integer the printer
      writes. */
  lemma ParseIntOfIntToString(n: int)
    ensures ParseInt(IntToString(n)) == Some(n)
  {
    ParseIntOfIntToStringUnstripped(n);
    if n < 0 { ParseSignedOfNegative(n); } else { ParseSignedOfNatural(n); }
  }

  // ---------------------------------------------------------------- split / join

  function StartsWith(s: string, prefix: string): bool {
    |prefix| <= |s| && s[..|prefix|] == prefix
  }

  /** The leading run of non-whitespace characters of `s`. */
  function TakeWord(s: string): (r: string)
    ensures |r| <= |s| && r == s[..|r|]
    ensures forall k :: 0 <= k < |r| ==> !IsSpace(r[k])
    ensures |r| == |s| || IsSpace(s[|r|])
  {
    if s == [] || IsSpace(s[0]) then [] else [s[0]] + TakeWord(s[1..])
  }

  /** The bot framework's `Command(name)` filter: the first word of the text
      (`text.split(maxsplit=1)[0]`) is `/name`, possibly followed by `@` and a
      mention, which is taken to name this bot. Such a text starts, after its
      leading whitespace, with `/name`, and nothing but the end, whitespace
      or `@` follows. */
  function IsCommand(text: string, name: string): (b: bool)
    ensures b ==> var t, command := TrimStart(text, IsSpace), "/" + name;
                  && StartsWith(t, command)
                  && (|t| == |command| || IsSpace(t[|command|]) || t[|command|] == '@')
    ensures (forall k :: 0 <= k < |name| ==> !IsSpace(name[k])) ==>
              (b <== var t, command := TrimStart(text, IsSpace), "/" + name;
                     && StartsWith(t, command)
                     && (|t| == |command| || IsSpace(t[|command|]) || t[|command|] == '@'))
  {
    var t, command := TrimStart(text, IsSpace), "/" + name;
    CommandPrefix(t, command);
    NamedCommandWord(t, name);
    var word := TakeWord(t);
    word == command || StartsWith(word, command + "@")
  }

  lemma CommandPrefix(t: string, command: string)
    ensures var word := TakeWord(t);
            (word == command || StartsWith(word, command + "@")) ==>
              && StartsWith(t, command)
              && (|t| == |command| || IsSpace(t[|command|]) || t[|command|] == '@')
  {
    var word := TakeWord(t);
    if word == command || StartsWith(word, command + "@") {
      assert word[..|command|] == command by {
        if word != command {
          assert word[..|command + "@"|] == command + "@";
          assert word[..|command|] == (command + "@")[..|command|];
        }
      }
      assert t[..|command|] == word[..|command|];
      if |word| > |command| {
        assert t[|command|] == word[|command|];
        assert word[|command|] == (command + "@")[|command|];
      }
    }
  }

  /** The name `start` has no whitespace, and a text that starts with `/`
      has no leading whitespace. */
  lemma StartCommandText(text: string)
    requires text != [] && text[0] == '/'
    ensures TrimStart(text, IsSpace) == text
    ensures forall k :: 0 <= k < |"start"| ==> !IsSpace("start"[k])
  {
    assert Leading(text, IsSpace) == 0;
  }

  /** `/start` alone is the `start` command. */
  lemma BareCommand()
    ensures IsCommand("/start", "start")
  {
    StartCommandText("/start");
    assert "/" + "start" == "/start";
  }

  /** `/start@bot` is the `start` command too. */
  lemma MentionedCommand()
    ensures IsCommand("/start@MovieBot", "start")
  {
    var text := "/start@MovieBot";
    StartCommandText(text);
    var command := "/" + "start";
    assert StartsWith(text, command) && text[|command|] == '@';
  }

  /** Leading whitespace and an argument do not hide the command. */
  lemma CommandWithArgument()
    ensures IsCommand(" /start now", "start")
  {
    var text := " /start now";
    StartCommandText(text[1..]);
    assert Leading(text, IsSpace) == 1 + Leading(text[1..], IsSpace);
    assert TrimStart(text, IsSpace) == text[1..];
  }

  /** A longer word that begins with the command is not the command. */
  lemma LongerWordIsNoCommand()
    ensures !IsCommand("/starts", "start")
  {
    StartCommandText("/starts");
  }

  /** A text that starts with a whitespace-free command has a first word at
      least as long as the command. */
  lemma {:induction false} TakeWordKeepsPrefix(t: string, p: string)
    requires StartsWith(t, p)
    requires forall k :: 0 <= k < |p| ==> !IsSpace(p[k])
    ensures |TakeWord(t)| >= |p|
  {
    if p != [] {
      assert t[0] == p[0];
      assert t[1..][..|p| - 1] == p[1..];
      TakeWordKeepsPrefix(t[1..], p[1..]);
    }
  }

  /** The converse of `CommandPrefix` for a whitespace-free command: a text
      that starts with the command, followed by its end, whitespace or `@`,
      has the command as its first word or `command@` as its start. */
  lemma CommandWord(t: string, command: string)
    requires forall k :: 0 <= k < |command| ==> !IsSpace(command[k])
    requires StartsWith(t, command)
    requires |t| == |command| || IsSpace(t[|command|]) || t[|command|] == '@'
    ensures var word := TakeWord(t); word == command || StartsWith(word, command + "@")
  {
    var word := TakeWord(t);
    TakeWordKeepsPrefix(t, command);
    WordOfCommand(t, word, command);
  }

  /** The step of `CommandWord`, stated about any leading run `word` of
      non-whitespace characters that ends at the end or at whitespace. */
  lemma WordOfCommand(t: string, word: string, command: string)
    requires |command| <= |word| <= |t| && word == t[..|word|]
    requires forall k :: 0 <= k < |word| ==> !IsSpace(word[k])
    requires |word| == |t| || IsSpace(t[|word|])
    requires StartsWith(t, command)
    requires |t| == |command| || IsSpace(t[|command|]) || t[|command|] == '@'
    ensures word == command || StartsWith(word, command + "@")
  {
    var n := |command|;
    if n < |t| && t[n] == '@' {
      assert |word| != n;
      assert word[..n + 1] == t[..n + 1];
      assert t[..n + 1] == t[..n] + [t[n]];
    } else {
      assert word == t[..n];
    }
  }

  /** `CommandWord` for the command `/name` of a whitespace-free name. */
  lemma NamedCommandWord(t: string, name: string)
    ensures var command := "/" + name;
            && (forall k :: 0 <= k < |name| ==> !IsSpace(name[k]))
            && StartsWith(t, command)
            && (|t| == |command| || IsSpace(t[|command|]) || t[|command|] == '@')
            ==> var word := TakeWord(t); word == command || StartsWith(word, command + "@")
  {
    var command := "/" + name;
    if && (forall k :: 0 <= k < |name| ==> !IsSpace(name[k]))
       && StartsWith(t, command)
       && (|t| == |command| || IsSpace(t[|command|]) || t[|command|] == '@')
    {
      forall k | 0 <= k < |command| ensures !IsSpace(command[k]) {
        if k > 0 { assert command[k] == name[k - 1]; }
      }
      CommandWord(t, command);
    }
  }

  /** `s.split(sep)` for a one-character separator: the pieces between the
      separators, empty pieces included. */
  function Split(s: string, sep: char): (r: seq<string>)
    ensures |r| >= 1
    ensures forall k :: 0 <= k < |r| ==> sep !in r[k]
  {
    if s == [] then [""]
    else if s[0] == sep then [""] + Split(s[1..], sep)
    else
      var rest := Split(s[1..], sep);
      [[s[0]] + rest[0]] + rest[1..]
  }

  /** Splitting recovers the pieces that were joined: a separator-free head
      becomes the first piece. */
  lemma {:induction false} SplitAfterPiece(a: string, sep: char, b: string)
    requires sep !in a
    ensures Split(a + [sep] + b, sep) == [a] + Split(b, sep)
  {
    if a == [] {
      assert a + [sep] + b == [sep] + b;
      assert ([sep] + b)[1..] == b;
    } else {
      assert (a + [sep] + b)[1..] == a[1..] + [sep] + b;
      SplitAfterPiece(a[1..], sep, b);
      assert [a[0]] + a[1..] == a;
    }
  }

  lemma {:induction false} SplitWithoutSeparator(a: string, sep: char)
    requires sep !in a
    ensures Split(a, sep) == [a]
  {
    if a != [] {
      SplitWithoutSeparator(a[1..], sep);
      assert [a[0]] + a[1..] == a;
    }
  }

  /** `s.split(sep)` has a second piece exactly when `s` holds the separator. */
  lemma {:induction false} SplitHasTwo(s: string, sep: char)
    ensures |Split(s, sep)| >= 2 <==> sep in s
  {
    if s != [] && s[0] != sep {
      SplitHasTwo(s[1..], sep);
      assert sep in s <==> sep in s[1..] by {
        assert s == [s[0]] + s[1..];
      }
    }
  }

  /** The total length of the pieces. */
  function TotalLength(parts: seq<string>): nat {
    if parts == [] then 0 else |parts[0]| + TotalLength(parts[1..])
  }

  /** `sep.join(parts)` for a one-character separator: the pieces, with one
      separator between each two of them. */
  function Join(parts: seq<string>, sep: char): (r: string)
    ensures parts != [] ==> |r| == TotalLength(parts) + |parts| - 1
    ensures parts == [] ==> r == ""
  {
    if parts == [] then ""
    else if |parts| == 1 then parts[0]
    else parts[0] + [sep] + Join(parts[1..], sep)
  }

  /** A join starts with its first piece and ends with its last. */
  lemma {:induction false} JoinEnds(parts: seq<string>, sep: char)
    requires |parts| > 0
    ensures StartsWith(Join(parts, sep), parts[0])
    ensures |parts[|parts| - 1]| <= |Join(parts, sep)|
    ensures Join(parts, sep)[|Join(parts, sep)| - |parts[|parts| - 1]|..] == parts[|parts| - 1]
  {
    if |parts| > 1 {
      var rest := Join(parts[1..], sep);
      var last := parts[|parts| - 1];
      JoinEnds(parts[1..], sep);
      assert parts[1..][|parts[1..]| - 1] == last;
      var joined := parts[0] + [sep] + rest;
      assert joined[..|parts[0]|] == parts[0];
      assert joined[|joined| - |last|..] == rest[|rest| - |last|..];
    }
  }

  /** `filter(None, parts)` on a list of strings: drops the empty ones and
      keeps every other one. */
  function NonEmpty(parts: seq<string>): (r: seq<string>)
    ensures |r| <= |parts|
    ensures forall k :: 0 <= k < |r| ==> r[k] != ""
    ensures forall x :: x in r <==> x in parts && x != ""
  {
    if parts == [] then []
    else if parts[0] == "" then NonEmpty(parts[1..])
    else [parts[0]] + NonEmpty(parts[1..])
  }

  lemma NonEmptyCons(a: string, rest: seq<string>)
    ensures NonEmpty([a] + rest) == if a == "" then NonEmpty(rest) else [a] + NonEmpty(rest)
  {
    assert ([a] + rest)[1..] == rest;
  }

  /** The filter keeps the order of the lines it keeps: filtering a
      concatenation concatenates the filtered parts. */
  lemma {:induction false} NonEmptyAppend(a: seq<string>, b: seq<string>)
    ensures NonEmpty(a + b) == NonEmpty(a) + NonEmpty(b)
  {
    if a == [] {
      assert a + b == b;
    } else {
      assert a + b == [a[0]] + (a[1..] + b);
      NonEmptyCons(a[0], a[1..] + b);
      NonEmptyCons(a[0], a[1..]);
      assert a == [a[0]] + a[1..];
      NonEmptyAppend(a[1..], b);
    }
  }

  /** A non-empty line is kept. */
  lemma NonEmptySingle(x: string)
    requires x != ""
    ensures NonEmpty([x]) == [x]
  {
    NonEmptyCons(x, []);
  }

  /** `s * n` for a one-character string. */
  function Repeat(c: char, n: nat): (r: string)
    ensures |r| == n
    ensures forall k :: 0 <= k < n ==> r[k] == c
  {
    if n == 0 then "" else [c] + Repeat(c, n - 1)
  }
}
