/** The JavaScript string operations the vault code relies on:
    `split`, `join`, `slice(0, n)` on the parts, `trim`, and the decimal
    rendering of a non-negative integer inside a template literal. */
module Text {

  /** `s.split(sep)` for a one-character separator: the pieces between the
      separators, including empty ones; the empty string splits into [""]. */
  function Split(s: string, sep: char): (parts: seq<string>)
    ensures |parts| >= 1
    ensures forall i :: 0 <= i < |parts| ==> sep !in parts[i]
    decreases |s|
  {
    if |s| == 0 then [""]
    else
      var rest := Split(s[1..], sep);
      if s[0] == sep then [""] + rest
      else [[s[0]] + rest[0]] + rest[1..]
  }

  /** `parts.join(sep)`. */
  function Join(parts: seq<string>, sep: char): (r: string)
    ensures |parts| == 0 ==> r == ""
    ensures |parts| >= 1 ==> parts[0] <= r
    ensures |parts| >= 2 ==> |parts[0]| < |r| && r[|parts[0]|] == sep
    decreases |parts|
  {
    if |parts| == 0 then ""
    else if |parts| == 1 then parts[0]
    else parts[0] + [sep] + Join(parts[1..], sep)
  }

  /** Joining the pieces of a split with the same separator gives back the string. */
  lemma {:induction false} JoinSplit(s: string, sep: char)
    ensures Join(Split(s, sep), sep) == s
    decreases |s|
  {
    if |s| > 0 {
      var rest := Split(s[1..], sep);
      JoinSplit(s[1..], sep);
      if s[0] == sep {
        assert Split(s, sep) == [""] + rest;
        assert s == [sep] + s[1..];
      } else {
        JoinCons(s[0], rest, sep);
        assert s == [s[0]] + s[1..];
      }
    }
  }

  /** A string without the separator splits into itself alone. */
  lemma {:induction false} SplitNoSeparator(s: string, sep: char)
    requires sep !in s
    ensures Split(s, sep) == [s]
    decreases |s|
  {
    if |s| > 0 {
      assert sep !in s[1..] by {
        forall k | 0 <= k < |s[1..]| ensures s[1..][k] != sep {
          assert s[1..][k] == s[k + 1];
        }
      }
      SplitNoSeparator(s[1..], sep);
      assert s == [s[0]] + s[1..];
    }
  }

  /** Splitting at a first separator: the text before it is the first
      piece, and the pieces of the rest follow. */
  lemma {:induction false} SplitAtFirst(head: string, sep: char, tail: string)
    requires sep !in head
    ensures Split(head + [sep] + tail, sep) == [head] + Split(tail, sep)
    decreases |head|
  {
    var s := head + [sep] + tail;
    if |head| == 0 {
      assert s == [sep] + tail;
      assert s[1..] == tail;
    } else {
      assert s[1..] == head[1..] + [sep] + tail;
      assert sep !in head[1..] by {
        forall k | 0 <= k < |head[1..]| ensures head[1..][k] != sep {
          assert head[1..][k] == head[k + 1];
        }
      }
      SplitAtFirst(head[1..], sep, tail);
      assert head == [head[0]] + head[1..];
    }
  }

  /** Prepending a character to the first piece prepends it to the joined text. */
  lemma JoinCons(c: char, parts: seq<string>, sep: char)
    requires |parts| >= 1
    ensures Join([[c] + parts[0]] + parts[1..], sep) == [c] + Join(parts, sep)
  {
  }

  /** The first `n` pieces, as `parts.slice(0, n)`. */
  function Take(parts: seq<string>, n: nat): (r: seq<string>)
    ensures |r| == if |parts| < n then |parts| else n
    ensures forall i :: 0 <= i < |r| ==> r[i] == parts[i]
  {
    if |parts| < n then parts else parts[..n]
  }

  /** The prefix of `s` that ends just before its `n`-th `sep` (all of `s`
      when it has fewer), with every earlier `sep` replaced by `glue`.  This
      is an independent description of `s.split(sep).slice(0, n).join(glue)`. */
  function BeforeNth(s: string, sep: char, n: nat, glue: char): string
    decreases |s|
  {
    if |s| == 0 || n == 0 then ""
    else if s[0] == sep then
      (if n == 1 then "" else [glue] + BeforeNth(s[1..], sep, n - 1, glue))
    else [s[0]] + BeforeNth(s[1..], sep, n, glue)
  }

  /** `s.split(sep).slice(0, n).join(glue)` is the prefix of `s` before its
      `n`-th separator, with the separators in it replaced by `glue`. */
  lemma {:induction false} SplitTakeJoin(s: string, sep: char, n: nat, glue: char)
    requires n >= 1
    ensures Join(Take(Split(s, sep), n), glue) == BeforeNth(s, sep, n, glue)
    decreases |s|
  {
    if |s| > 0 {
      var rest := Split(s[1..], sep);
      if s[0] == sep {
        assert Split(s, sep) == [""] + rest;
        if n > 1 {
          SplitTakeJoin(s[1..], sep, n - 1, glue);
          var t := Take(Split(s, sep), n);
          assert t == [""] + Take(rest, n - 1);
          assert t[1..] == Take(rest, n - 1);
        }
      } else {
        SplitTakeJoin(s[1..], sep, n, glue);
        var t := Take(Split(s, sep), n);
        var u := Take(rest, n);
        assert t == [[s[0]] + u[0]] + u[1..];
        JoinCons(s[0], u, glue);
      }
    }
  }

  /** The characters JavaScript's `trim` removes: the white space and line
      terminator code points of ECMAScript. */
  predicate IsJsWhiteSpace(c: char) {
    c == ' ' || c == '\t' || c == '\n' || c == '\r' || c == '\U{000B}' || c == '\U{000C}'
    || c == '\U{00A0}' || c == '\U{FEFF}' || c == '\U{1680}'
    || ('\U{2000}' <= c <= '\U{200A}')
    || c == '\U{2028}' || c == '\U{2029}' || c == '\U{202F}' || c == '\U{205F}' || c == '\U{3000}'
  }

  function TrimStart(s: string): (r: string)
    ensures |r| <= |s| && r == s[|s| - |r|..]
    ensures r == "" || !IsJsWhiteSpace(r[0])
  {
    if |s| > 0 && IsJsWhiteSpace(s[0]) then TrimStart(s[1..]) else s
  }

  function TrimEnd(s: string): (r: string)
    ensures |r| <= |s| && r == s[..|r|]
    ensures r == "" || !IsJsWhiteSpace(r[|r| - 1])
  {
    if |s| > 0 && IsJsWhiteSpace(s[|s| - 1]) then TrimEnd(s[..|s| - 1]) else s
  }

  /** `s.trim()`: neither end of the result is white space. */
  function Trim(s: string): (r: string)
    ensures |r| <= |s|
    ensures r == "" || (!IsJsWhiteSpace(r[0]) && !IsJsWhiteSpace(r[|r| - 1]))
  {
    TrimEnd(TrimStart(s))
  }

  /** `s` consists of white space only (the empty string included). */
  predicate IsBlank(s: string) {
    forall i :: 0 <= i < |s| ==> IsJsWhiteSpace(s[i])
  }

  /** `s.trim()` is empty exactly when `s` is blank. */
  lemma {:induction false} TrimEmptyIffBlank(s: string)
    ensures Trim(s) == "" <==> IsBlank(s)
    decreases |s|
  {
    TrimStartEmptyIffBlank(s);
    var t := TrimStart(s);
    if t != "" {
      assert !IsJsWhiteSpace(t[0]) by { TrimStartHead(s); }
      TrimEndKeepsHead(t);
    }
  }

  lemma {:induction false} TrimStartEmptyIffBlank(s: string)
    ensures TrimStart(s) == "" <==> IsBlank(s)
    decreases |s|
  {
    if |s| > 0 {
      TrimStartEmptyIffBlank(s[1..]);
      if IsJsWhiteSpace(s[0]) {
        assert IsBlank(s) <==> IsBlank(s[1..]) by {
          if IsBlank(s[1..]) {
            forall i | 0 <= i < |s| ensures IsJsWhiteSpace(s[i]) {
              if i > 0 { assert s[i] == s[1..][i - 1]; }
            }
          }
        }
      }
    }
  }

  lemma {:induction false} TrimStartHead(s: string)
    requires TrimStart(s) != ""
    ensures !IsJsWhiteSpace(TrimStart(s)[0])
    decreases |s|
  {
    if |s| > 0 && IsJsWhiteSpace(s[0]) {
      TrimStartHead(s[1..]);
    }
  }

  /** `TrimEnd` never removes a first character that is not white space. */
  lemma {:induction false} TrimEndKeepsHead(t: string)
    requires t != "" && !IsJsWhiteSpace(t[0])
    ensures TrimEnd(t) != ""
    decreases |t|
  {
    if IsJsWhiteSpace(t[|t| - 1]) {
      assert |t| > 1;
      TrimEndKeepsHead(t[..|t| - 1]);
    }
  }

  function DigitChar(d: nat): char
    requires d < 10
  {
    (48 + d) as char
  }

  /** The decimal text of a non-negative integer, as a template literal
      renders it. */
  function Decimal(n: nat): (s: string)
    ensures |s| >= 1
    ensures forall i :: 0 <= i < |s| ==> '0' <= s[i] <= '9'
  {
    if n < 10 then [DigitChar(n)] else Decimal(n / 10) + [DigitChar(n % 10)]
  }

  /** Reads a string of decimal digits back as a number. */
  function ParseDecimal(s: string): nat
    requires forall i :: 0 <= i < |s| ==> '0' <= s[i] <= '9'
  {
    if |s| == 0 then 0
    else ParseDecimal(s[..|s| - 1]) * 10 + ((s[|s| - 1] as int) - 48)
  }

  /** The decimal text reads back as the same number. */
  lemma {:induction false} DecimalRoundTrip(n: nat)
    ensures ParseDecimal(Decimal(n)) == n
  {
    if n >= 10 {
      DecimalRoundTrip(n / 10);
      var s := Decimal(n);
      assert s[..|s| - 1] == Decimal(n / 10);
    }
  }

  /** A number in 10000..99999 has exactly five decimal digits. */
  lemma FiveDigits(n: nat)
    requires 10000 <= n <= 99999
    ensures |Decimal(n)| == 5
  {
    assert |Decimal(n / 10000)| == 1;
    assert Decimal(n / 1000) == Decimal(n / 10000) + [DigitChar(n / 1000 % 10)];
    assert Decimal(n / 100) == Decimal(n / 1000) + [DigitChar(n / 100 % 10)];
    assert Decimal(n / 10) == Decimal(n / 100) + [DigitChar(n / 10 % 10)];
  }

  /** Joining pieces that lack `c` with a glue other than `c` gives a text
      without `c`. */
  lemma {:induction false} JoinAvoids(parts: seq<string>, sep: char, c: char)
    requires c != sep
    requires forall i :: 0 <= i < |parts| ==> c !in parts[i]
    ensures c !in Join(parts, sep)
    decreases |parts|
  {
    if |parts| > 1 {
      JoinAvoids(parts[1..], sep, c);
    }
  }

  /** `prompt.split(' ').slice(0, 3).join('_')`: the name a new record gets;
      it holds no space. */
  function PromptName(prompt: string): (r: string)
    ensures ' ' !in r
  {
    JoinAvoids(Take(Split(prompt, ' '), 3), '_', ' ');
    Join(Take(Split(prompt, ' '), 3), '_')
  }

  /** The name is the prompt up to its third space, with the first two
      spaces turned into underscores; it is empty only for an empty prompt. */
  lemma PromptNameMeaning(prompt: string)
    ensures PromptName(prompt) == BeforeNth(prompt, ' ', 3, '_')
    ensures PromptName(prompt) == "" <==> prompt == ""
  {
    SplitTakeJoin(prompt, ' ', 3, '_');
    if prompt != "" {
      assert BeforeNth(prompt, ' ', 3, '_')[0] == (if prompt[0] == ' ' then '_' else prompt[0]);
    }
  }

  /** `Math.floor(10000 + random * 90000)` for a `random` drawn from [0, 1). */
  function ShortIdNumber(random: real): (n: int)
    requires 0.0 <= random < 1.0
    ensures 10000 <= n <= 99999
  {
    (10000.0 + random * 90000.0).Floor
  }
}
