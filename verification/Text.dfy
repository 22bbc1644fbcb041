/** The byte-string operations the text protocol is parsed with. */
module Text {
  import opened Streams

  datatype Number = Number(value: int) | NotANumber

  /** The fields of a line separated by single spaces; there is always at least one. */
  function Split(line: string): (fields: seq<string>)
    ensures |fields| >= 1
    decreases |line|
  {
    var pos := Find(line, {' '});
    if pos == |line| then [line] else [line[..pos]] + Split(line[pos + 1..])
  }

  /** How many spaces a line has. */
  function Spaces(line: string): nat {
    if line == "" then 0 else (if line[0] == ' ' then 1 else 0) + Spaces(line[1..])
  }

  function JoinFields(fields: seq<string>): string
    requires fields != []
  {
    if |fields| == 1 then fields[0] else fields[0] + (" " + JoinFields(fields[1..]))
  }

  /** A line with a space is split there, once and for all. */
  lemma SplitOnce(line: string) returns (head: string, rest: string)
    requires Find(line, {' '}) < |line|
    ensures |rest| < |line| && Split(line) == [head] + Split(rest) && line == head + (" " + rest)
    ensures ' ' !in head && Spaces(line) == 1 + Spaces(rest)
  {
    var pos := Find(line, {' '});
    head, rest := line[..pos], line[pos + 1..];
    assert Spaces(line) == 1 + Spaces(rest) by { FirstSpace(line); }
    AroundSpace(line, pos);
  }

  lemma AroundSpace(line: string, pos: nat)
    requires pos < |line| && line[pos] == ' '
    ensures line == line[..pos] + (" " + line[pos + 1..])
  {
    assert line == line[..pos] + line[pos..];
  }

  /** Splitting loses nothing, leaves no space in a field, and makes one field more than there are spaces. */
  lemma {:induction false} SplitExactly(line: string)
    ensures JoinFields(Split(line)) == line && |Split(line)| == Spaces(line) + 1
    ensures forall field :: field in Split(line) ==> ' ' !in field
    decreases |line|
  {
    if Find(line, {' '}) < |line| {
      var head, rest := SplitOnce(line);
      SplitExactly(rest);
      JoinFirst(head, Split(rest));
    } else {
      FirstSpace(line);
      assert ' ' !in line;
    }
  }

  lemma JoinFirst(head: string, fields: seq<string>)
    requires fields != []
    ensures JoinFields([head] + fields) == head + (" " + JoinFields(fields))
    ensures ' ' !in head && (forall field :: field in fields ==> ' ' !in field) ==>
              forall field :: field in [head] + fields ==> ' ' !in field
  {
    assert ([head] + fields)[1..] == fields;
  }

  /** The spaces of a line lie at and behind its first space. */
  lemma {:induction false} FirstSpace(line: string)
    ensures var pos := Find(line, {' '});
            Spaces(line) == if pos == |line| then 0 else 1 + Spaces(line[pos + 1..])
  {
    if line != "" && line[0] != ' ' {
      FirstSpace(line[1..]);
      var pos := Find(line[1..], {' '});
      assert Find(line, {' '}) == pos + 1;
      assert pos < |line[1..]| ==> line[1..][pos + 1..] == line[pos + 2..];
    }
  }

  function TrimRight(text: string, cutset: set<char>): (r: string)
    ensures r <= text
    ensures r == "" || r[|r| - 1] !in cutset
  {
    if text != "" && text[|text| - 1] in cutset then TrimRight(text[..|text| - 1], cutset) else text
  }

  function TrimCr(line: string): string {
    if |line| >= 1 && line[|line| - 1] == '\r' then line[..|line| - 1] else line
  }

  /** A line as the reader returns it: without the newline and without one carriage return before it. */
  function TrimEol(line: string): string
    requires line != ""
  {
    TrimCr(line[..|line| - 1])
  }

  /** A line that ends in a bare newline is returned whole; one carriage return before it goes too. */
  lemma TrimEolExactly(line: string)
    ensures TrimEol(line + "\r\n") == line
    ensures line == "" || line[|line| - 1] != '\r' ==> TrimEol(line + "\n") == line
  {
    var a, b := line + "\r\n", line + "\n";
    assert a[..|a| - 1] == line + "\r" && b[..|b| - 1] == line;
    assert (line + "\r")[..|line|] == line;
  }

  predicate IsDigit(c: char) { '0' <= c <= '9' }

  predicate IsLetter(c: char) { 'a' <= c <= 'z' || 'A' <= c <= 'Z' }

  /** One or more letters and nothing else. */
  predicate IsWord(text: string) { text != "" && forall c :: c in text ==> IsLetter(c) }

  predicate AllDigits(text: string) {
    text == "" || (IsDigit(text[0]) && AllDigits(text[1..]))
  }

  function DigitsValue(digits: string): int {
    if digits == "" then 0
    else DigitsValue(digits[..|digits| - 1]) * 10 + (digits[|digits| - 1] as int - '0' as int)
  }

  const MIN_INT := -0x8000_0000_0000_0000
  const MAX_INT := 0x7fff_ffff_ffff_ffff

  /** A decimal number with an optional sign that fits a 64-bit integer. */
  function Atoi(text: string): (r: Number) {
    var digits := if text != "" && text[0] in {'+', '-'} then text[1..] else text;
    if digits == "" || !AllDigits(digits) then NotANumber
    else
      var n := DigitsValue(digits);
      var v := if text[0] == '-' then -n else n;
      if MIN_INT <= v <= MAX_INT then Number(v) else NotANumber
  }

  function Itoa(n: nat): (digits: string)
    ensures digits != ""
  {
    var last := ['0' + (n % 10) as char];
    if n < 10 then last else Itoa(n / 10) + last
  }

  /** Printing a length and parsing it back gives the same length. */
  lemma {:induction false} AtoiItoa(n: nat)
    requires n <= MAX_INT
    ensures Atoi(Itoa(n)) == Number(n)
  {
    ItoaDigits(n);
  }

  /** A sign in front of it is understood, and a number that does not fit 64 bits is none. */
  lemma AtoiSigned(n: int)
    requires n >= 0
    ensures Atoi(Itoa(n)) == Atoi("+" + Itoa(n)) == if n < 0x8000_0000_0000_0000 then Number(n) else NotANumber
    ensures Atoi("-" + Itoa(n)) == if n <= 0x8000_0000_0000_0000 then Number(-n) else NotANumber
  {
    ItoaDigits(n);
    assert ("+" + Itoa(n))[1..] == Itoa(n) && ("-" + Itoa(n))[1..] == Itoa(n);
    assert IsDigit(Itoa(n)[0]);
  }

  /** A text with anything but digits behind an optional sign is not a number, nor is one without digits. */
  lemma AtoiRefuses(text: string, i: nat)
    requires text in {"", "+", "-"} || (i < |text| && !IsDigit(text[i]) && (i > 0 || text[0] !in {'+', '-'}))
    ensures Atoi(text) == NotANumber
  {
    if text !in {"", "+", "-"} {
      if text[0] in {'+', '-'} {
        NotAllDigits(text[1..], i - 1);
      } else {
        NotAllDigits(text, i);
      }
    }
  }

  lemma {:induction false} NotAllDigits(text: string, i: nat)
    requires i < |text| && !IsDigit(text[i])
    ensures !AllDigits(text)
  {
    if i > 0 {
      NotAllDigits(text[1..], i - 1);
    }
  }

  lemma {:induction false} ItoaDigits(n: nat)
    ensures AllDigits(Itoa(n)) && DigitsValue(Itoa(n)) == n
  {
    var last := ['0' + (n % 10) as char];
    if n < 10 {
      assert last[..0] == "" && last[1..] == "";
    } else {
      ItoaDigits(n / 10);
      DigitsConcat(Itoa(n / 10), last);
      assert Itoa(n)[..|Itoa(n)| - 1] == Itoa(n / 10);
    }
  }

  lemma {:induction false} DigitsConcat(a: string, b: string)
    requires AllDigits(a) && |b| == 1 && IsDigit(b[0])
    ensures AllDigits(a + b)
  {
    if a == "" {
      assert a + b == b && b[1..] == "";
    } else {
      assert (a + b)[1..] == a[1..] + b;
      DigitsConcat(a[1..], b);
    }
  }
}
