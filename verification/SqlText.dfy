/** SQL text as characters: splitting it into words, and the decimal numbers in `$n` placeholders. */
module SqlText {
  import opened Wrappers

  /** Putting a character before a text lengthens its first word, or starts a new one. */
  function Prepend(c: char, words: seq<string>): seq<string>
    requires |words| >= 1
  {
    if c == ' ' then [""] + words else [[c] + words[0]] + words[1..]
  }

  /** The words of a text: the stretches between single spaces. */
  function Split(text: string): (words: seq<string>)
    ensures |words| >= 1
  {
    if text == "" then [""] else
      var rest := Split(text[1..]);
      Prepend(text[0], rest)
  }

  lemma PrependToFirst(c: char, a: seq<string>, b: seq<string>)
    requires |a| >= 1
    ensures Prepend(c, a + b) == Prepend(c, a) + b
  {
    assert (a + b)[0] == a[0] && (a + b)[1..] == a[1..] + b;
  }

  lemma SplitFirst(text: string)
    requires text != ""
    ensures Split(text) == Prepend(text[0], Split(text[1..]))
  {
  }

  /** A space between two texts is a boundary between their words. */
  lemma {:induction false} SplitAtSpace(a: string, b: string)
    ensures Split(a + " " + b) == Split(a) + Split(b)
  {
    var text := a + " " + b;
    SplitFirst(text);
    if a == "" {
      assert text[1..] == b;
    } else {
      SplitAtSpace(a[1..], b);
      assert text[1..] == a[1..] + " " + b;
      SplitFirst(a);
      PrependToFirst(a[0], Split(a[1..]), Split(b));
    }
  }

  lemma {:induction false} SplitOneWord(text: string)
    requires ' ' !in text
    ensures Split(text) == [text]
  {
    if text != "" {
      SplitOneWord(text[1..]);
      assert [text[0]] + text[1..] == text;
    }
  }

  /** A first word without spaces stands alone. */
  lemma LeadingWord(word: string, rest: string)
    requires ' ' !in word
    ensures Split(word + " " + rest) == [word] + Split(rest)
  {
    SplitAtSpace(word, rest);
    SplitOneWord(word);
  }

  function Digit(d: nat): char
    requires d < 10
  {
    '0' + d as char
  }

  /** `%d` of a natural number. */
  function FormatNat(n: nat): (text: string)
    ensures |text| > 0 && forall c | c in text :: '0' <= c <= '9'
  {
    if n < 10 then [Digit(n)] else FormatNat(n / 10) + [Digit(n % 10)]
  }

  function ParseNat(text: string): Option<nat> {
    if |text| == 0 then None else
      var last := text[|text| - 1];
      if !('0' <= last <= '9') then None else
        var d := (last - '0') as nat;
        if |text| == 1 then Some(d) else
          match ParseNat(text[..|text| - 1]) case None => None case Some(n) => Some(10 * n + d)
  }

  lemma {:induction false} NumberRoundTrip(n: nat)
    ensures ParseNat(FormatNat(n)) == Some(n)
  {
    if n >= 10 {
      NumberRoundTrip(n / 10);
      var text := FormatNat(n);
      assert text[..|text| - 1] == FormatNat(n / 10);
    }
  }

  /** `strings.Join`. */
  function Join(parts: seq<string>, sep: string): string {
    if |parts| == 0 then "" else
      if |parts| == 1 then parts[0] else parts[0] + sep + Join(parts[1..], sep)
  }

  function Placeholder(n: nat): string {
    "$" + FormatNat(n)
  }

  function ParsePlaceholder(word: string): Option<nat> {
    if |word| > 1 && word[0] == '$' then ParseNat(word[1..]) else None
  }

  lemma PlaceholderRoundTrip(n: nat)
    ensures ParsePlaceholder(Placeholder(n)) == Some(n)
    ensures ' ' !in Placeholder(n)
  {
    NumberRoundTrip(n);
    assert Placeholder(n)[1..] == FormatNat(n);
  }
}
