/** A Code 39 ("Code 3 of 9", ISO/IEC 16388) bar code drawn as a row of HTML
    spans.

    Each character of the message is drawn as nine elements, bars and spaces
    by turns and starting with a bar, three of them wide and six narrow. One
    narrow space follows them and separates the character from the next. The
    symbol table writes each character as ten digits, `1` for a wide element
    and `0` for a narrow one. The start/stop character `*` frames the
    message. */
module Code39 {
  import opened Results

  /** The exception `encode` raises when the message holds a character that
      has no entry in the symbol table (a KeyError). */
  datatype Error = UnknownCharacter(c: char)

  // ---------------------------------------------------------------------------
  // Patterns

  /** The width of one element, `int(code[j])`: 1 is wide and 0 is narrow. */
  function Digit(d: char): int {
    if d == '1' then 1 else 0
  }

  predicate IsBit(d: char) {
    d == '0' || d == '1'
  }

  /** The number of wide elements in a ten-element pattern. */
  function Wides(p: string): int
    requires |p| == 10
  {
    Digit(p[0]) + Digit(p[1]) + Digit(p[2]) + Digit(p[3]) + Digit(p[4])
    + Digit(p[5]) + Digit(p[6]) + Digit(p[7]) + Digit(p[8]) + Digit(p[9])
  }

  /** A table entry: ten elements, each narrow or wide, three of them wide.
      The last one is the narrow gap between characters. */
  predicate WellFormedPattern(p: string) {
    |p| == 10
    && IsBit(p[0]) && IsBit(p[1]) && IsBit(p[2]) && IsBit(p[3]) && IsBit(p[4])
    && IsBit(p[5]) && IsBit(p[6]) && IsBit(p[7]) && IsBit(p[8]) && IsBit(p[9])
    && Wides(p) == 3 && p[9] == '0'
  }

  // ---------------------------------------------------------------------------
  // The symbol table, split by character class so that each part stays small

  /** The entries for the digits, as `createSymbolSet` writes them. */
  function DigitPattern(c: char): (p: Option<string>)
    ensures p.Some? ==> WellFormedPattern(p.value)
    ensures p.Some? ==> '0' <= c <= '9'
  {
    match c
    case '0' => Some("0001101000")
    case '1' => Some("1001000010")
    case '2' => Some("0011000010")
    case '3' => Some("1011000000")
    case '4' => Some("0001100010")
    case '5' => Some("1001100000")
    case '6' => Some("0011100000")
    case '7' => Some("0001001010")
    case '8' => Some("1001001000")
    case '9' => Some("0011001000")
    case _ => None
  }

  /** The entries for the letters A to I, as `createSymbolSet` writes them. */
  function PatternAToI(c: char): (p: Option<string>)
    ensures p.Some? ==> WellFormedPattern(p.value)
    ensures p.Some? ==> 'A' <= c <= 'I'
  {
    match c
    case 'A' => Some("0011001000")
    case 'B' => Some("0010010010")
    case 'C' => Some("1010010000")
    case 'D' => Some("0000110010")
    case 'E' => Some("1000110000")
    case 'F' => Some("0010110000")
    case 'G' => Some("0000011010")
    case 'H' => Some("1000011000")
    case 'I' => Some("0010011000")
    case _ => None
  }

  /** The entries for the letters J to R, as `createSymbolSet` writes them. */
  function PatternJToR(c: char): (p: Option<string>)
    ensures p.Some? ==> WellFormedPattern(p.value)
    ensures p.Some? ==> 'J' <= c <= 'R'
  {
    match c
    case 'J' => Some("0000111000")
    case 'K' => Some("1000000110")
    case 'L' => Some("0010000110")
    case 'M' => Some("1010000100")
    case 'N' => Some("0000100110")
    case 'O' => Some("1000100100")
    case 'P' => Some("0010100100")
    case 'Q' => Some("0000001110")
    case 'R' => Some("1000001100")
    case _ => None
  }

  /** The entries for the letters S to Z, as `createSymbolSet` writes them. */
  function PatternSToZ(c: char): (p: Option<string>)
    ensures p.Some? ==> WellFormedPattern(p.value)
    ensures p.Some? ==> 'S' <= c <= 'Z'
  {
    match c
    case 'S' => Some("0010001100")
    case 'T' => Some("0000101100")
    case 'U' => Some("1100000010")
    case 'V' => Some("0110000010")
    case 'W' => Some("1110000000")
    case 'X' => Some("0100100010")
    case 'Y' => Some("1100100000")
    case 'Z' => Some("0110100000")
    case _ => None
  }

  /** The entries for `-`, `.`, space, a backquote, `$`, `/`, `+`, `%` and `*`, as `createSymbolSet` writes them. */
  function SignPattern(c: char): (p: Option<string>)
    ensures p.Some? ==> WellFormedPattern(p.value)
    ensures p.Some? ==> !('0' <= c <= '9' || 'A' <= c <= 'Z')
  {
    match c
    case '-' => Some("0100001010")
    case '.' => Some("1100001000")
    case ' ' => Some("0110001000")
    case '`' => Some("0110001000")
    case '$' => Some("0101010000")
    case '/' => Some("0101000100")
    case '+' => Some("0100010100")
    case '%' => Some("0001010100")
    case '*' => Some("0100101000")
    case _ => None
  }

  /** The symbol table exactly as `createSymbolSet` fills it. The entry for
      `A` repeats the entry for `9`. */
  function PatternAsWritten(c: char): (p: Option<string>)
    ensures p.Some? ==> WellFormedPattern(p.value)
  {
    if '0' <= c <= '9' then DigitPattern(c)
    else if 'A' <= c <= 'I' then PatternAToI(c)
    else if 'J' <= c <= 'R' then PatternJToR(c)
    else if 'S' <= c <= 'Z' then PatternSToZ(c)
    else SignPattern(c)
  }

  /** The pattern ISO/IEC 16388 gives `A`: its first bar, its third space
      and its last bar are the wide elements. */
  const PatternOfA := "1000010010"

  /** The symbol table with `A` drawn as the standard draws it. Every other
      entry is the one `createSymbolSet` writes. */
  function Pattern(c: char): (p: Option<string>)
    ensures p.Some? ==> WellFormedPattern(p.value)
    ensures c != 'A' ==> p == PatternAsWritten(c)
    ensures c == 'A' ==> p == Some(PatternOfA)
  {
    if c == 'A' then Some(PatternOfA) else PatternAsWritten(c)
  }

  /** The entries for the letters A to I with `A` corrected. */
  function PatternAToICorrected(c: char): (p: Option<string>)
    ensures p.Some? ==> 'A' <= c <= 'I'
    ensures p == if 'A' <= c <= 'I' then Pattern(c) else None
  {
    if c == 'A' then Some(PatternOfA) else PatternAToI(c)
  }

  // ---------------------------------------------------------------------------
  // Reading a pattern back

  /** A pattern as a ten-digit binary number, its first element the most significant. */
  function Value(p: string): int
    requires |p| == 10
  {
    512 * Digit(p[0]) + 256 * Digit(p[1]) + 128 * Digit(p[2]) + 64 * Digit(p[3]) + 32 * Digit(p[4])
    + 16 * Digit(p[5]) + 8 * Digit(p[6]) + 4 * Digit(p[7]) + 2 * Digit(p[8]) + Digit(p[9])
  }

  /** What a reader of Code 39 reports for a ten-element pattern: the
      character the standard draws that way, if any. */
  function Decode(p: string): Option<char> {
    if |p| != 10 then None else
    match Value(p)
    case 104 => Some('0')  // 0001101000
    case 578 => Some('1')  // 1001000010
    case 194 => Some('2')  // 0011000010
    case 704 => Some('3')  // 1011000000
    case 98 => Some('4')  // 0001100010
    case 608 => Some('5')  // 1001100000
    case 224 => Some('6')  // 0011100000
    case 74 => Some('7')  // 0001001010
    case 584 => Some('8')  // 1001001000
    case 200 => Some('9')  // 0011001000
    case 530 => Some('A')  // 1000010010
    case 146 => Some('B')  // 0010010010
    case 656 => Some('C')  // 1010010000
    case 50 => Some('D')  // 0000110010
    case 560 => Some('E')  // 1000110000
    case 176 => Some('F')  // 0010110000
    case 26 => Some('G')  // 0000011010
    case 536 => Some('H')  // 1000011000
    case 152 => Some('I')  // 0010011000
    case 56 => Some('J')  // 0000111000
    case 518 => Some('K')  // 1000000110
    case 134 => Some('L')  // 0010000110
    case 644 => Some('M')  // 1010000100
    case 38 => Some('N')  // 0000100110
    case 548 => Some('O')  // 1000100100
    case 164 => Some('P')  // 0010100100
    case 14 => Some('Q')  // 0000001110
    case 524 => Some('R')  // 1000001100
    case 140 => Some('S')  // 0010001100
    case 44 => Some('T')  // 0000101100
    case 770 => Some('U')  // 1100000010
    case 386 => Some('V')  // 0110000010
    case 896 => Some('W')  // 1110000000
    case 290 => Some('X')  // 0100100010
    case 800 => Some('Y')  // 1100100000
    case 416 => Some('Z')  // 0110100000
    case 266 => Some('-')  // 0100001010
    case 776 => Some('.')  // 1100001000
    case 392 => Some(' ')  // 0110001000
    case 336 => Some('$')  // 0101010000
    case 324 => Some('/')  // 0101000100
    case 276 => Some('+')  // 0100010100
    case 84 => Some('%')  // 0001010100
    case 296 => Some('*')  // 0100101000
    case _ => None
  }

  /** Every character of the corrected table reads back as itself, except the
      backquote, which is drawn as a space and so reads back as one. */
  lemma DigitsDecodeLow(c: char)
    requires '0' <= c <= '4'
    ensures DigitPattern(c).Some? && Decode(DigitPattern(c).value) == Some(c)
  {
  }

  lemma DigitsDecodeHigh(c: char)
    requires '5' <= c <= '9'
    ensures DigitPattern(c).Some? && Decode(DigitPattern(c).value) == Some(c)
  {
  }

  lemma LettersBToEDecode(c: char)
    requires 'B' <= c <= 'E'
    ensures PatternAToI(c).Some? && Decode(PatternAToI(c).value) == Some(c)
  {
  }

  lemma LettersFToIDecode(c: char)
    requires 'F' <= c <= 'I'
    ensures PatternAToI(c).Some? && Decode(PatternAToI(c).value) == Some(c)
  {
  }

  lemma LettersJToNDecode(c: char)
    requires 'J' <= c <= 'N'
    ensures PatternJToR(c).Some? && Decode(PatternJToR(c).value) == Some(c)
  {
  }

  lemma LettersOToRDecode(c: char)
    requires 'O' <= c <= 'R'
    ensures PatternJToR(c).Some? && Decode(PatternJToR(c).value) == Some(c)
  {
  }

  lemma LettersSToVDecode(c: char)
    requires 'S' <= c <= 'V'
    ensures PatternSToZ(c).Some? && Decode(PatternSToZ(c).value) == Some(c)
  {
  }

  lemma LettersWToZDecode(c: char)
    requires 'W' <= c <= 'Z'
    ensures PatternSToZ(c).Some? && Decode(PatternSToZ(c).value) == Some(c)
  {
  }

  lemma SignsUpToStarDecode(c: char)
    requires SignPattern(c).Some? && c <= '*'
    ensures SignPattern(c).Some? && Decode(SignPattern(c).value) == Some(c)
  {
  }

  lemma SignsAfterStarDecode(c: char)
    requires SignPattern(c).Some? && '*' < c < '`'
    ensures SignPattern(c).Some? && Decode(SignPattern(c).value) == Some(c)
  {
  }

  lemma {:induction false} DecodePattern(c: char)
    requires Pattern(c).Some?
    ensures Decode(Pattern(c).value) == Some(if c == '`' then ' ' else c)
  {
    if '0' <= c <= '4' {
      DigitsDecodeLow(c);
    } else if '5' <= c <= '9' {
      DigitsDecodeHigh(c);
    } else if 'B' <= c <= 'E' {
      LettersBToEDecode(c);
    } else if 'F' <= c <= 'I' {
      LettersFToIDecode(c);
    } else if 'J' <= c <= 'N' {
      LettersJToNDecode(c);
    } else if 'O' <= c <= 'R' {
      LettersOToRDecode(c);
    } else if 'S' <= c <= 'V' {
      LettersSToVDecode(c);
    } else if 'W' <= c <= 'Z' {
      LettersWToZDecode(c);
    } else if c == '`' {
      SignsUpToStarDecode(' ');
      assert Pattern(c) == SignPattern(' ');
    } else if c <= '*' {
      SignsUpToStarDecode(c);
    } else if c != 'A' {
      SignsAfterStarDecode(c);
    }
  }

  /** In the corrected table two characters share a pattern exactly when they
      are the same character, or the space and the backquote. */
  lemma PatternsDistinct(c: char, d: char)
    requires Pattern(c).Some? && Pattern(d).Some?
    ensures Pattern(c) == Pattern(d) <==> c == d || (c in " `" && d in " `")
  {
    DecodePattern(c);
    DecodePattern(d);
    DecodePattern(' ');
    DecodePattern('`');
  }

  /** The table as written draws `A` exactly as it draws `9`, so a reader
      reports every `A` of the message as a `9`. */
  lemma AsWrittenAReadsAsNine()
    ensures PatternAsWritten('A') == PatternAsWritten('9')
    ensures Decode(PatternAsWritten('A').value) == Some('9')
  {
    DigitsDecodeHigh('9');
  }

  // ---------------------------------------------------------------------------
  // Symbol maps

  /** A symbol map every entry of which is a well-formed pattern. */
  predicate WellFormedTable(t: map<char, string>) {
    forall c | c in t :: WellFormedPattern(t[c])
  }

  /** The map `createSymbolSet` builds: an entry for exactly the characters
      of the table, each its pattern. */
  predicate IsTable(t: map<char, string>) {
    forall c :: (c in t <==> Pattern(c).Some?) && (c in t ==> t[c] == Pattern(c).value)
  }

  /** The character a reader reports for `c`: itself, except that the
      backquote, drawn as a space, reads as a space. */
  function Readable(c: char): char {
    if c == '`' then ' ' else c
  }

  /** A symbol map every entry of which reads back as its own character. */
  predicate ReadsBackTable(t: map<char, string>) {
    forall c | c in t :: Decode(t[c]) == Some(Readable(c))
  }

  /** The symbol map `createSymbolSet` builds is well formed, and every
      entry reads back as its own character. */
  lemma TableProperties(t: map<char, string>)
    requires IsTable(t)
    ensures WellFormedTable(t) && ReadsBackTable(t)
  {
    forall c | c in t
      ensures WellFormedPattern(t[c]) && Decode(t[c]) == Some(Readable(c))
    {
      DecodePattern(c);
    }
  }

  // ---------------------------------------------------------------------------
  // Messages

  /** `str.upper()` on one character. Only the ASCII letters change. */
  function UpperChar(c: char): char {
    if 'a' <= c <= 'z' then (c as int - 32) as char else c
  }

  function Upper(s: string): string {
    seq(|s|, i requires 0 <= i < |s| => UpperChar(s[i]))
  }

  /** The message `setValue` derives from a value. */
  function MessageOf(v: string): string {
    Upper("*" + v + "*")
  }

  /** The message is the upper-cased value between two start/stop
      characters, and upper-casing it again changes nothing. */
  lemma MessageFramed(v: string)
    ensures |MessageOf(v)| == |v| + 2
    ensures MessageOf(v)[0] == '*' && MessageOf(v)[|v| + 1] == '*'
    ensures MessageOf(v)[1..|v| + 1] == Upper(v)
    ensures Upper(MessageOf(v)) == MessageOf(v)
  {
    var m := MessageOf(v);
    assert ("*" + v + "*")[0] == '*';
    assert ("*" + v + "*")[|v| + 1] == '*';
    forall i | 0 <= i < |v|
      ensures m[1..|v| + 1][i] == Upper(v)[i]
    {
      assert ("*" + v + "*")[i + 1] == v[i];
    }
  }

  /** Every character of the message has an entry in the symbol map. */
  predicate Encodable(t: map<char, string>, msg: string) {
    forall i | 0 <= i < |msg| :: msg[i] in t
  }

  lemma EncodablePrefix(t: map<char, string>, msg: string, n: int)
    requires Encodable(t, msg) && 0 <= n <= |msg|
    ensures Encodable(t, msg[..n])
  {
    forall i | 0 <= i < n
      ensures msg[..n][i] in t
    {
      assert msg[..n][i] == msg[i];
    }
  }

  /** The position of the first character without an entry: the lookup that
      raises. */
  function FirstUnknown(t: map<char, string>, msg: string): (k: nat)
    requires !Encodable(t, msg)
    ensures k < |msg| && msg[k] !in t
    ensures forall i | 0 <= i < k :: msg[i] in t
  {
    if msg[0] !in t then 0
    else
      assert !Encodable(t, msg[1..]) by {
        var i :| 0 <= i < |msg| && msg[i] !in t;
        assert msg[1..][i - 1] == msg[i];
      }
      1 + FirstUnknown(t, msg[1..])
  }

  /** The patterns of the message's characters, one after another. */
  function Patterns(t: map<char, string>, msg: string): (p: string)
    requires WellFormedTable(t) && Encodable(t, msg)
    ensures |p| == 10 * |msg|
  {
    if msg == [] then []
    else
      EncodablePrefix(t, msg, |msg| - 1);
      Patterns(t, msg[..|msg| - 1]) + t[msg[|msg| - 1]]
  }

  /** The j-th element of the i-th character is the j-th digit of that
      character's pattern. */
  lemma {:induction false} PatternsAt(t: map<char, string>, msg: string, i: int, j: int)
    requires WellFormedTable(t) && Encodable(t, msg) && 0 <= i < |msg| && 0 <= j < 10
    ensures Patterns(t, msg)[10 * i + j] == t[msg[i]][j]
  {
    var n := |msg| - 1;
    if i < n {
      EncodablePrefix(t, msg, n);
      PatternsAt(t, msg[..n], i, j);
      assert msg[..n][i] == msg[i];
    }
  }

  /** The message `setValue` makes of `v` can be encoded exactly when every
      character of `v`, upper-cased, has an entry in the table. */
  lemma MessageEncodable(t: map<char, string>, v: string)
    requires IsTable(t)
    ensures Encodable(t, MessageOf(v)) <==> forall i | 0 <= i < |v| :: Pattern(UpperChar(v[i])).Some?
  {
    var m := MessageOf(v);
    MessageChars(v);
    StarInTable(t);
    if forall i | 0 <= i < |v| :: Pattern(UpperChar(v[i])).Some? {
      forall k | 0 <= k < |m|
        ensures m[k] in t
      {
        if 0 < k <= |v| {
          assert m[(k - 1) + 1] == UpperChar(v[k - 1]);
        }
      }
    }
    if Encodable(t, m) {
      forall i | 0 <= i < |v|
        ensures Pattern(UpperChar(v[i])).Some?
      {
        assert m[i + 1] in t;
      }
    }
  }

  /** Character i of the value is character i + 1 of the message, upper-cased. */
  lemma MessageChars(v: string)
    ensures |MessageOf(v)| == |v| + 2 && MessageOf(v)[0] == '*' && MessageOf(v)[|v| + 1] == '*'
    ensures forall i | 0 <= i < |v| :: MessageOf(v)[i + 1] == UpperChar(v[i])
  {
    MessageFramed(v);
    forall i | 0 <= i < |v| ensures MessageOf(v)[i + 1] == UpperChar(v[i]) {
      assert MessageOf(v)[i + 1] == MessageOf(v)[1..|v| + 1][i];
    }
  }

  lemma StarInTable(t: map<char, string>)
    requires IsTable(t)
    ensures '*' in t
  {
    assert Pattern('*').Some?;
  }


  /** The patterns of a message `setValue` makes begin and end with the
      start/stop pattern of `*`. */
  lemma StartStop(t: map<char, string>, v: string, j: int)
    requires IsTable(t) && WellFormedTable(t) && Encodable(t, MessageOf(v)) && 0 <= j < 10
    ensures Patterns(t, MessageOf(v))[j] == "0100101000"[j]
    ensures Patterns(t, MessageOf(v))[10 * (|v| + 1) + j] == "0100101000"[j]
  {
    MessageFramed(v);
    assert Pattern('*') == Some("0100101000");
    PatternsAt(t, MessageOf(v), 0, j);
    PatternsAt(t, MessageOf(v), |v| + 1, j);
  }

  // ---------------------------------------------------------------------------
  // Elements

  /** The four spans `createElements` makes, indexed by width and then by
      colour: `Elements[0][0]` a narrow space, `Elements[0][1]` a narrow bar,
      `Elements[1][0]` a wide space and `Elements[1][1]` a wide bar. */
  const Elements: seq<seq<string>> := [
    ["<span class='ns'></span>", "<span class='nb'></span>"],
    ["<span class='ws'></span>", "<span class='wb'></span>"]]

  /** The colour of the k-th element: 1 (black, a bar) at even positions and
      0 (white, a space) at odd ones. */
  function Color(k: int): int {
    if k % 2 == 0 then 1 else 0
  }

  /** The ten spans of one character whose pattern is `p`. */
  function CharElements(p: string): (e: seq<string>)
    requires |p| == 10
    ensures |e| == 10
  {
    seq(10, j requires 0 <= j < 10 => Elements[Digit(p[j])][Color(j)])
  }

  /** The spans of a whole message, character by character. */
  function Encoding(t: map<char, string>, msg: string): (e: seq<string>)
    requires WellFormedTable(t) && Encodable(t, msg)
    ensures |e| == 10 * |msg|
  {
    if msg == [] then []
    else
      EncodablePrefix(t, msg, |msg| - 1);
      Encoding(t, msg[..|msg| - 1]) + CharElements(t[msg[|msg| - 1]])
  }

  /** One span of the encoding: the width its pattern digit gives and the
      colour its position gives, counted over the whole message. Since every
      character has ten elements, the colours run on unbroken from one
      character to the next. */
  lemma {:induction false} EncodingElements(t: map<char, string>, msg: string, k: int)
    requires WellFormedTable(t) && Encodable(t, msg) && 0 <= k < 10 * |msg|
    ensures Encoding(t, msg)[k] == Elements[Digit(Patterns(t, msg)[k])][Color(k)]
  {
    var n := |msg| - 1;
    EncodablePrefix(t, msg, n);
    if k < 10 * n {
      EncodingElements(t, msg[..n], k);
    } else {
      var j := k - 10 * n;
      assert Color(j) == Color(k);
    }
  }

  /** The width a span draws, read back: `1` for a wide one. */
  function WidthOf(e: string): char {
    if e == Elements[1][0] || e == Elements[1][1] then '1' else '0'
  }

  predicate IsBar(e: string) {
    e == Elements[0][1] || e == Elements[1][1]
  }

  /** The four spans are told apart by their width and their colour. */
  lemma ElementsDistinct(w: int, c: int)
    requires 0 <= w < 2 && 0 <= c < 2
    ensures WidthOf(Elements[w][c]) == if w == 1 then '1' else '0'
    ensures IsBar(Elements[w][c]) <==> c == 1
  {
    assert Elements[0][0][13] == 'n' && Elements[0][1][13] == 'n';
    assert Elements[1][0][13] == 'w' && Elements[1][1][13] == 'w';
    assert Elements[0][0][14] == 's' && Elements[1][0][14] == 's';
    assert Elements[0][1][14] == 'b' && Elements[1][1][14] == 'b';
  }

  /** Bars and spaces alternate through the whole encoding, starting with a
      bar, so the first element of every character is a bar. */
  lemma Alternates(t: map<char, string>, msg: string, k: int)
    requires WellFormedTable(t) && Encodable(t, msg) && 0 <= k < 10 * |msg|
    ensures IsBar(Encoding(t, msg)[k]) <==> k % 2 == 0
    ensures k % 10 == 0 ==> IsBar(Encoding(t, msg)[k])
  {
    EncodingElements(t, msg, k);
    ElementsDistinct(Digit(Patterns(t, msg)[k]), Color(k));
    if k % 10 == 0 {
      TenthsAreEven(k);
    }
  }

  lemma TenthsAreEven(k: int)
    requires k % 10 == 0
    ensures k % 2 == 0
  {
    var q := k / 10;
    assert k == 2 * (5 * q);
  }

  /** The j-th digit of a well-formed pattern is a 0 or a 1. */
  lemma BitAt(p: string, j: int)
    requires WellFormedPattern(p) && 0 <= j < 10
    ensures IsBit(p[j])
  {
    if j == 0 {} else if j == 1 {} else if j == 2 {} else if j == 3 {} else if j == 4 {}
    else if j == 5 {} else if j == 6 {} else if j == 7 {} else if j == 8 {}
  }

  // ---------------------------------------------------------------------------
  // Reading an encoding back

  /** The widths a row of spans draws, read back span by span. */
  function ReadWidths(e: seq<string>): (p: string)
    ensures |p| == |e|
  {
    seq(|e|, k requires 0 <= k < |e| => WidthOf(e[k]))
  }

  /** What a reader that reports `read(q)` for a ten-element pattern `q`
      reports for a row of patterns; None when some pattern is not a
      character's. */
  function DecodeAll(read: string -> Option<char>, p: string): Option<string>
    decreases |p|
  {
    if |p| < 10 then (if p == [] then Some([]) else None)
    else match (DecodeAll(read, p[..|p| - 10]), read(p[|p| - 10..]))
      case (Some(front), Some(c)) => Some(front + [c])
      case _ => None
  }

  function ReadableMessage(msg: string): string {
    seq(|msg|, i requires 0 <= i < |msg| => Readable(msg[i]))
  }

  /** The spans give back the patterns they were drawn from. */
  lemma ReadsBackWidths(t: map<char, string>, msg: string)
    requires WellFormedTable(t) && Encodable(t, msg)
    ensures ReadWidths(Encoding(t, msg)) == Patterns(t, msg)
  {
    forall k | 0 <= k < 10 * |msg|
      ensures ReadWidths(Encoding(t, msg))[k] == Patterns(t, msg)[k]
    {
      EncodingElements(t, msg, k);
      var i, j := k / 10, k % 10;
      PatternsAt(t, msg, i, j);
      BitAt(t[msg[i]], j);
      ElementsDistinct(Digit(Patterns(t, msg)[k]), Color(k));
    }
  }

  /** The patterns of a message read back as the message, with each
      backquote read as a space. */
  lemma {:induction false} PatternsDecode(t: map<char, string>, msg: string, read: string -> Option<char>)
    requires WellFormedTable(t) && Encodable(t, msg)
    requires forall c | c in t :: read(t[c]) == Some(Readable(c))
    ensures DecodeAll(read, Patterns(t, msg)) == Some(ReadableMessage(msg))
  {
    if msg != [] {
      var n := |msg| - 1;
      EncodablePrefix(t, msg, n);
      PatternsSplit(t, msg);
      PatternsDecode(t, msg[..n], read);
      ReadableSnoc(msg);
    }
  }

  /** The patterns of a message are those of all but its last character,
      then the pattern of the last. */
  lemma PatternsSplit(t: map<char, string>, msg: string)
    requires WellFormedTable(t) && Encodable(t, msg) && msg != []
    ensures Encodable(t, msg[..|msg| - 1])
    ensures Patterns(t, msg)[..10 * (|msg| - 1)] == Patterns(t, msg[..|msg| - 1])
    ensures Patterns(t, msg)[10 * (|msg| - 1)..] == t[msg[|msg| - 1]]
  {
    EncodablePrefix(t, msg, |msg| - 1);
  }

  lemma ReadableSnoc(msg: string)
    requires msg != []
    ensures ReadableMessage(msg) == ReadableMessage(msg[..|msg| - 1]) + [Readable(msg[|msg| - 1])]
  {
  }


  /** Encoding a message and reading the spans back gives the message again
      (each backquote coming back as a space). */
  lemma RoundTrip(t: map<char, string>, msg: string)
    requires IsTable(t) && WellFormedTable(t) && Encodable(t, msg)
    ensures DecodeAll(Decode, ReadWidths(Encoding(t, msg))) == Some(ReadableMessage(msg))
  {
    TableProperties(t);
    ReadsBackWidths(t, msg);
    PatternsDecode(t, msg, Decode);
  }

  // ---------------------------------------------------------------------------
  // Widths

  /** The pixels one element takes. */
  function ElementWidth(d: char, narrow: int, wide: int): int {
    if d == '1' then wide else narrow
  }

  /** The pixels a row of elements takes. */
  function DrawnWidth(p: string, narrow: int, wide: int): int {
    if p == [] then 0 else DrawnWidth(p[..|p| - 1], narrow, wide) + ElementWidth(p[|p| - 1], narrow, wide)
  }

  /** The number of wide elements in a row. */
  function Ones(p: string): nat {
    if p == [] then 0 else Ones(p[..|p| - 1]) + Digit(p[|p| - 1])
  }

  lemma {:induction false} DrawnWidthAppend(a: string, b: string, narrow: int, wide: int)
    ensures DrawnWidth(a + b, narrow, wide) == DrawnWidth(a, narrow, wide) + DrawnWidth(b, narrow, wide)
  {
    if b == [] {
      assert a + b == a;
    } else {
      assert (a + b)[..|a + b| - 1] == a + b[..|b| - 1];
      DrawnWidthAppend(a, b[..|b| - 1], narrow, wide);
    }
  }

  /** A row is narrow everywhere but at its wide elements. */
  lemma {:induction false} DrawnWidthCounts(p: string, narrow: int, wide: int)
    ensures DrawnWidth(p, narrow, wide) == narrow * |p| + (wide - narrow) * Ones(p)
  {
    if p != [] {
      DrawnWidthCounts(p[..|p| - 1], narrow, wide);
      var d := Digit(p[|p| - 1]);
      assert ElementWidth(p[|p| - 1], narrow, wide) == narrow + (wide - narrow) * d;
      assert narrow * |p| == narrow * (|p| - 1) + narrow;
      assert (wide - narrow) * Ones(p) == (wide - narrow) * Ones(p[..|p| - 1]) + (wide - narrow) * d;
    }
  }

  lemma OnesOfPattern(p: string)
    requires |p| == 10
    ensures Ones(p) == Wides(p)
  {
    assert p[..1][..0] == [];
    assert p[..2][..1] == p[..1];
    assert p[..3][..2] == p[..2];
    assert p[..4][..3] == p[..3];
    assert p[..5][..4] == p[..4];
    assert p[..6][..5] == p[..5];
    assert p[..7][..6] == p[..6];
    assert p[..8][..7] == p[..7];
    assert p[..9][..8] == p[..8];
    assert p[..9] == p[..10][..9] && p[..10] == p;
    assert Ones(p[..1]) == Digit(p[0]);
    assert Ones(p[..2]) == Ones(p[..1]) + Digit(p[1]);
    assert Ones(p[..3]) == Ones(p[..2]) + Digit(p[2]);
    assert Ones(p[..4]) == Ones(p[..3]) + Digit(p[3]);
    assert Ones(p[..5]) == Ones(p[..4]) + Digit(p[4]);
    assert Ones(p[..6]) == Ones(p[..5]) + Digit(p[5]);
    assert Ones(p[..7]) == Ones(p[..6]) + Digit(p[6]);
    assert Ones(p[..8]) == Ones(p[..7]) + Digit(p[7]);
    assert Ones(p[..9]) == Ones(p[..8]) + Digit(p[8]);
  }

  /** Each character draws seven narrow and three wide elements, so a message
      of n characters draws 7n narrow and 3n wide ones. */
  lemma {:induction false} MessageWidth(t: map<char, string>, msg: string, narrow: int, wide: int)
    requires WellFormedTable(t) && Encodable(t, msg)
    ensures DrawnWidth(Patterns(t, msg), narrow, wide) == narrow * 7 * |msg| + wide * 3 * |msg|
  {
    if msg != [] {
      var n := |msg| - 1;
      EncodablePrefix(t, msg, n);
      MessageWidth(t, msg[..n], narrow, wide);
      var p := t[msg[n]];
      assert Patterns(t, msg) == Patterns(t, msg[..n]) + p;
      DrawnWidthAppend(Patterns(t, msg[..n]), p, narrow, wide);
      PatternWidth(p, narrow, wide);
      Distribute(narrow * 7, n);
      Distribute(wide * 3, n);
    }
  }

  /** One character draws seven narrow and three wide elements. */
  lemma PatternWidth(p: string, narrow: int, wide: int)
    requires WellFormedPattern(p)
    ensures DrawnWidth(p, narrow, wide) == narrow * 7 + wide * 3
  {
    DrawnWidthCounts(p, narrow, wide);
    OnesOfPattern(p);
    assert (wide - narrow) * Ones(p) == (wide - narrow) * 3;
  }

  lemma Distribute(a: int, n: int)
    ensures a * (n + 1) == a * n + a
  {
  }

  /** The lines of `createSymbolSet` for the digits. */
  function DigitEntries(): (r: map<char, string>)
    ensures forall c :: (c in r <==> DigitPattern(c).Some?) && (c in r ==> r[c] == DigitPattern(c).value)
  {
    map[
      '0' := "0001101000",
      '1' := "1001000010",
      '2' := "0011000010",
      '3' := "1011000000",
      '4' := "0001100010",
      '5' := "1001100000",
      '6' := "0011100000",
      '7' := "0001001010",
      '8' := "1001001000",
      '9' := "0011001000"
    ]
  }

  /** The lines of `createSymbolSet` for the letters A to I, `A` corrected. */
  function LetterEntriesAToI(): (r: map<char, string>)
    ensures forall c :: (c in r <==> PatternAToICorrected(c).Some?) && (c in r ==> r[c] == PatternAToICorrected(c).value)
  {
    map[
      'A' := "1000010010",
      'B' := "0010010010",
      'C' := "1010010000",
      'D' := "0000110010",
      'E' := "1000110000",
      'F' := "0010110000",
      'G' := "0000011010",
      'H' := "1000011000",
      'I' := "0010011000"
    ]
  }

  /** The lines of `createSymbolSet` for the letters J to R. */
  function LetterEntriesJToR(): (r: map<char, string>)
    ensures forall c :: (c in r <==> PatternJToR(c).Some?) && (c in r ==> r[c] == PatternJToR(c).value)
  {
    map[
      'J' := "0000111000",
      'K' := "1000000110",
      'L' := "0010000110",
      'M' := "1010000100",
      'N' := "0000100110",
      'O' := "1000100100",
      'P' := "0010100100",
      'Q' := "0000001110",
      'R' := "1000001100"
    ]
  }

  /** The lines of `createSymbolSet` for the letters S to Z. */
  function LetterEntriesSToZ(): (r: map<char, string>)
    ensures forall c :: (c in r <==> PatternSToZ(c).Some?) && (c in r ==> r[c] == PatternSToZ(c).value)
  {
    map[
      'S' := "0010001100",
      'T' := "0000101100",
      'U' := "1100000010",
      'V' := "0110000010",
      'W' := "1110000000",
      'X' := "0100100010",
      'Y' := "1100100000",
      'Z' := "0110100000"
    ]
  }

  /** The lines of `createSymbolSet` for the signs. */
  function SignEntries(): (r: map<char, string>)
    ensures forall c :: (c in r <==> SignPattern(c).Some?) && (c in r ==> r[c] == SignPattern(c).value)
  {
    map[
      '-' := "0100001010",
      '.' := "1100001000",
      ' ' := "0110001000",
      '`' := "0110001000",
      '$' := "0101010000",
      '/' := "0101000100",
      '+' := "0100010100",
      '%' := "0001010100",
      '*' := "0100101000"
    ]
  }

  /** The character classes together make up the whole table. */
  lemma UnionIsTable(digits: map<char, string>, first: map<char, string>, middle: map<char, string>,
                     last: map<char, string>, signs: map<char, string>)
    requires forall c :: (c in digits <==> DigitPattern(c).Some?) && (c in digits ==> digits[c] == DigitPattern(c).value)
    requires forall c :: (c in first <==> PatternAToICorrected(c).Some?) && (c in first ==> first[c] == PatternAToICorrected(c).value)
    requires forall c :: (c in middle <==> PatternJToR(c).Some?) && (c in middle ==> middle[c] == PatternJToR(c).value)
    requires forall c :: (c in last <==> PatternSToZ(c).Some?) && (c in last ==> last[c] == PatternSToZ(c).value)
    requires forall c :: (c in signs <==> SignPattern(c).Some?) && (c in signs ==> signs[c] == SignPattern(c).value)
    ensures IsTable(digits + first + middle + last + signs)
  {
    var all := digits + first + middle + last + signs;
    forall c
      ensures (c in all <==> Pattern(c).Some?) && (c in all ==> all[c] == Pattern(c).value)
    {
      if '0' <= c <= '9' {
        assert Pattern(c) == DigitPattern(c);
        assert c !in first && c !in middle && c !in last && c !in signs;
      } else if 'A' <= c <= 'I' {
        assert Pattern(c) == PatternAToICorrected(c);
        assert c !in digits && c !in middle && c !in last && c !in signs;
      } else if 'J' <= c <= 'R' {
        assert Pattern(c) == PatternJToR(c);
        assert c !in digits && c !in first && c !in last && c !in signs;
      } else if 'S' <= c <= 'Z' {
        assert Pattern(c) == PatternSToZ(c);
        assert c !in digits && c !in first && c !in middle && c !in signs;
      } else {
        assert Pattern(c) == SignPattern(c);
        assert c !in digits && c !in first && c !in middle && c !in last;
      }
    }
  }

  // ---------------------------------------------------------------------------
  // The bar code object

  class Code39 {
    var value: string
    var message: string
    var factor: int
    var width: int
    var height: int
    var wide: int
    var narrow: int
    var symbolSet: map<char, string>
    var elements: seq<seq<string>>
    var encoded: seq<string>

    /** What the constructor establishes and every method keeps. */
    ghost predicate Valid()
      reads this
    {
      IsTable(symbolSet) && WellFormedTable(symbolSet) && elements == Elements
      && height == 30 * factor && wide == 5 * factor && narrow == 2 * factor
    }

    /** `BarCode.__init__(height=1, width=0, factor=0)`, then `setFactor(1)`,
        `createSymbolSet()` and `createElements()`. */
    constructor ()
      ensures Valid()
      ensures factor == 1 && height == 30 && wide == 5 && narrow == 2 && width == 0
      ensures value == "" && message == "" && encoded == []
    {
      value, message, encoded := "", "", [];
      factor, width, height := 0, 0, 1;
      wide, narrow := 0, 0;
      symbolSet, elements := map[], [];
      new;
      SetFactor(1);
      CreateSymbolSet();
      CreateElements();
      TableProperties(symbolSet);
    }

    method SetValue(v: string)
      modifies this`value, this`message
      ensures value == v && message == MessageOf(v)
    {
      value := v;
      message := Upper("*" + v + "*");
    }

    method SetFactor(f: int)
      modifies this`factor, this`height, this`wide, this`narrow
      ensures factor == f && height == 30 * f && wide == 5 * f && narrow == 2 * f
    {
      factor := f;
      height := f * 30;
      wide := f * 5;
      narrow := f * 2;
    }

    /** `createSymbolSet`: a map holding the entries of every character
        class. The entry for `A` is the corrected one. */
    method CreateSymbolSet()
      modifies this`symbolSet
      ensures IsTable(symbolSet)
    {
      var digits, first, middle, last, signs := DigitEntries(), LetterEntriesAToI(), LetterEntriesJToR(), LetterEntriesSToZ(), SignEntries();
      UnionIsTable(digits, first, middle, last, signs);
      symbolSet := digits + first + middle + last + signs;
    }

    method CreateElements()
      modifies this`elements
      ensures elements == Elements
    {
      elements := [["<span class='ns'></span>", "<span class='nb'></span>"],
                   ["<span class='ws'></span>", "<span class='wb'></span>"]];
    }

    /** `getWidth`: the pixels the elements of the message take, one more per
        character, and ten for the borders. */
    function GetWidth(): (w: int)
      reads this
      ensures WellFormedTable(symbolSet) && Encodable(symbolSet, message) ==>
        w == DrawnWidth(ReadWidths(Encoding(symbolSet, message)), narrow, wide) + |message| + 10
    {
      var n := |message|;
      if WellFormedTable(symbolSet) && Encodable(symbolSet, message) then
        ReadsBackWidths(symbolSet, message);
        MessageWidth(symbolSet, message, narrow, wide);
        narrow * 7 * n + wide * 3 * n + n + 10
      else
        narrow * 7 * n + wide * 3 * n + n + 10
    }

    /** The inner loop of `encode`: the ten spans of one character whose
        pattern is `code`, starting with a bar. The colour flips after every
        span, so after ten spans it is back to black. */
    method EncodeCharacter(code: string, color0: int) returns (color: int)
      requires elements == Elements && |code| == 10 && color0 == 1
      modifies this`encoded
      ensures encoded == old(encoded) + CharElements(code)
      ensures color == 1
    {
      color := color0;
      var j := 0;
      while j < 10
        invariant 0 <= j <= 10
        invariant encoded == old(encoded) + CharElements(code)[..j]
        invariant color == Color(j)
      {
        var w := Digit(code[j]);
        encoded := encoded + [elements[w][color]];
        if color == 1 {
          color := 0;
        } else {
          color := 1;
        }
        j := j + 1;
      }
    }

    /** `encode`: the spans of the message, ten per character, the colour
        flipping after every span. A character without an entry raises,
        leaving the spans of the characters before it. */
    method Encode() returns (r: Outcome<Error>)
      requires WellFormedTable(symbolSet) && elements == Elements
      modifies this`encoded
      ensures r.Pass? <==> Encodable(symbolSet, message)
      ensures r.Pass? ==> encoded == Encoding(symbolSet, message)
      ensures r.Fail? ==>
        var k := FirstUnknown(symbolSet, message);
        r.error == UnknownCharacter(message[k]) && encoded == Encoding(symbolSet, message[..k])
    {
      encoded := [];
      var color := 1;
      var i := 0;
      while i < |message|
        invariant 0 <= i <= |message|
        invariant Encodable(symbolSet, message[..i])
        invariant encoded == Encoding(symbolSet, message[..i])
        invariant color == 1
      {
        if message[i] !in symbolSet {
          assert FirstUnknown(symbolSet, message) == i;
          return Fail(UnknownCharacter(message[i]));
        }
        color := EncodeCharacter(symbolSet[message[i]], color);
        assert message[..i + 1][..i] == message[..i];
        assert Encodable(symbolSet, message[..i + 1]) by {
          var next := message[..i + 1];
          forall m | 0 <= m < |next| ensures next[m] in symbolSet {
            if m < i {
              assert next[m] == message[..i][m];
            }
          }
        }
        i := i + 1;
      }
      assert message[..i] == message;
      return Pass;
    }
  }
}
