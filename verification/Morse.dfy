/**
 The code table of Recommendation ITU-R M.1677-1 (Annex 1, Part I, section 1) as the
 sender and the decoder each write it down, and the fact that the two copies agree.
 */
module Morse {
  import opened Wrappers
  import opened Text

  /** Dits and dahs of one character; `None` for a character that is skipped. */
  function MorseFor(c: char): Option<string> {
    match UpperChar(c)
    case 'A' => Some(".-")
    case 'B' => Some("-...")
    case 'C' => Some("-.-.")
    case 'D' => Some("-..")
    case 'E' => Some(".")
    case 'F' => Some("..-.")
    case 'G' => Some("--.")
    case 'H' => Some("....")
    case 'I' => Some("..")
    case 'J' => Some(".---")
    case 'K' => Some("-.-")
    case 'L' => Some(".-..")
    case 'M' => Some("--")
    case 'N' => Some("-.")
    case 'O' => Some("---")
    case 'P' => Some(".--.")
    case 'Q' => Some("--.-")
    case 'R' => Some(".-.")
    case 'S' => Some("...")
    case 'T' => Some("-")
    case 'U' => Some("..-")
    case 'V' => Some("...-")
    case 'W' => Some(".--")
    case 'X' => Some("-..-")
    case 'Y' => Some("-.--")
    case 'Z' => Some("--..")
    case '0' => Some("-----")
    case '1' => Some(".----")
    case '2' => Some("..---")
    case '3' => Some("...--")
    case '4' => Some("....-")
    case '5' => Some(".....")
    case '6' => Some("-....")
    case '7' => Some("--...")
    case '8' => Some("---..")
    case '9' => Some("----.")
    case '.' => Some(".-.-.-")
    case ',' => Some("--..--")
    case '?' => Some("..--..")
    case '/' => Some("-..-.")
    case '=' => Some("-...-")
    case '+' => Some(".-.-.")
    case _ => None
  }

  /** The reverse table of the decoder. */
  function DecodeMorse(s: string): Option<char> {
    match s
    case ".-" => Some('A')
    case "-..." => Some('B')
    case "-.-." => Some('C')
    case "-.." => Some('D')
    case "." => Some('E')
    case "..-." => Some('F')
    case "--." => Some('G')
    case "...." => Some('H')
    case ".." => Some('I')
    case ".---" => Some('J')
    case "-.-" => Some('K')
    case ".-.." => Some('L')
    case "--" => Some('M')
    case "-." => Some('N')
    case "---" => Some('O')
    case ".--." => Some('P')
    case "--.-" => Some('Q')
    case ".-." => Some('R')
    case "..." => Some('S')
    case "-" => Some('T')
    case "..-" => Some('U')
    case "...-" => Some('V')
    case ".--" => Some('W')
    case "-..-" => Some('X')
    case "-.--" => Some('Y')
    case "--.." => Some('Z')
    case "-----" => Some('0')
    case ".----" => Some('1')
    case "..---" => Some('2')
    case "...--" => Some('3')
    case "....-" => Some('4')
    case "....." => Some('5')
    case "-...." => Some('6')
    case "--..." => Some('7')
    case "---.." => Some('8')
    case "----." => Some('9')
    case ".-.-.-" => Some('.')
    case "--..--" => Some(',')
    case "..--.." => Some('?')
    case "-..-." => Some('/')
    case "-...-" => Some('=')
    case ".-.-." => Some('+')
    case _ => None
  }

  /** The decoder's table inverts the sender's on every character the sender knows. */
  lemma DecodeInvertsEncode(c: char)
    requires MorseFor(c).Some?
    ensures MorseFor(c).value != ""
    ensures forall i :: 0 <= i < |MorseFor(c).value| ==> MorseFor(c).value[i] in ".-"
    ensures DecodeMorse(MorseFor(c).value) == Some(UpperChar(c))
  {
    hide DecodeMorse, UpperChar;
    var u := UpperChar(c);
    if 'A' <= u <= 'Z' {
      LettersAgree(c);
    } else {
      SignsAgree(c);
    }
  }

  lemma LettersAgree(c: char)
    requires MorseFor(c).Some? && 'A' <= UpperChar(c) <= 'Z'
    ensures DecodeMorse(MorseFor(c).value) == Some(UpperChar(c))
  {
    hide UpperChar;
  }

  lemma SignsAgree(c: char)
    requires MorseFor(c).Some? && !('A' <= UpperChar(c) <= 'Z')
    ensures DecodeMorse(MorseFor(c).value) == Some(UpperChar(c))
  {
    hide UpperChar;
  }

  /** The sender's table inverts the decoder's: no pattern decodes to a stray character. */
  lemma EncodeInvertsDecode(s: string)
    requires DecodeMorse(s).Some?
    ensures MorseFor(DecodeMorse(s).value) == Some(s)
  {
    if |s| <= 3 {
      ShortPatterns(s);
    }
  }

  lemma ShortPatterns(s: string)
    requires DecodeMorse(s).Some? && |s| <= 3
    ensures MorseFor(DecodeMorse(s).value) == Some(s)
  {
  }

  // ---- the shape of the code -------------------------------------------------------

  /** The letters as the nodes of a tree, read row by row from node 2 on: left is a dot, right a dash. */
  const TREE := "  ETIANMSURWDKGOHVF L PJBXCYZQ  "

  /** The pattern that leads to a node; the root is node 1. */
  function Pattern(node: nat): string {
    if node <= 1 then "" else Pattern(node / 2) + if node % 2 == 1 then "-" else "."
  }

  predicate AtNode(node: nat)
    requires node < |TREE|
  {
    DecodeMorse(Pattern(node)) == if TREE[node] == ' ' then None else Some(TREE[node])
  }

  lemma PatternBelow(node: nat, up: string)
    requires node >= 1 && Pattern(node) == up
    ensures Pattern(2 * node) == up + "." && Pattern(2 * node + 1) == up + "-"
  {
  }

  lemma TopPatterns()
    ensures Pattern(1) == "" && Pattern(2) == "." && Pattern(3) == "-"
    ensures Pattern(4) == ".." && Pattern(5) == ".-" && Pattern(6) == "-." && Pattern(7) == "--"
  {
    hide Pattern;
    assert Pattern(1) == "" by { RootPattern(); }
    PatternBelow(1, "");
    PatternBelow(2, ".");
    PatternBelow(3, "-");
  }

  lemma RootPattern()
    ensures Pattern(1) == ""
  {
  }

  lemma TopNodes()
    ensures forall node :: 2 <= node < 8 ==> AtNode(node)
  {
    hide Pattern;
    TopPatterns();
    assert AtNode(2) && AtNode(3) && AtNode(4) && AtNode(5) && AtNode(6) && AtNode(7);
  }

  /** The two nodes below one of the third row. */
  lemma NodesBelow(node: nat, up: string)
    requires 4 <= node < 8 && Pattern(node) == up && |up| == 2 && (forall i :: 0 <= i < 2 ==> up[i] == '.' || up[i] == '-')
    requires node == 4 + (if up[0] == '-' then 2 else 0) + (if up[1] == '-' then 1 else 0)
    ensures AtNode(2 * node) && AtNode(2 * node + 1)
    ensures Pattern(2 * node) == up + "." && Pattern(2 * node + 1) == up + "-"
  {
    hide Pattern;
    PatternBelow(node, up);
    match node
    case 4 => assert up == ".." && up + "." == "..." && up + "-" == "..-";
    case 5 => assert up == ".-" && up + "." == ".-." && up + "-" == ".--";
    case 6 => assert up == "-." && up + "." == "-.." && up + "-" == "-.-";
    case 7 => assert up == "--" && up + "." == "--." && up + "-" == "---";
  }

  lemma ThirdRow()
    ensures forall node :: 8 <= node < 16 ==> AtNode(node)
    ensures Pattern(8) == "..." && Pattern(9) == "..-" && Pattern(10) == ".-." && Pattern(11) == ".--"
    ensures Pattern(12) == "-.." && Pattern(13) == "-.-" && Pattern(14) == "--." && Pattern(15) == "---"
  {
    hide Pattern, AtNode;
    TopPatterns();
    NodesBelow(4, "..");
    NodesBelow(5, ".-");
    NodesBelow(6, "-.");
    NodesBelow(7, "--");
  }

  lemma LowNodes(node: nat, up: string)
    requires 8 <= node < 12 && Pattern(node) == up
    requires up == match node case 8 => "..." case 9 => "..-" case 10 => ".-." case _ => ".--"
    ensures AtNode(2 * node) && AtNode(2 * node + 1)
  {
    hide Pattern;
    PatternBelow(node, up);
    match node
    case 8 => assert up + "." == "...." && up + "-" == "...-";
    case 9 => assert up + "." == "..-." && up + "-" == "..--";
    case 10 => assert up + "." == ".-.." && up + "-" == ".-.-";
    case _ => assert up + "." == ".--." && up + "-" == ".---";
  }

  lemma HighNodes(node: nat, up: string)
    requires 12 <= node < 16 && Pattern(node) == up
    requires up == match node case 12 => "-.." case 13 => "-.-" case 14 => "--." case _ => "---"
    ensures AtNode(2 * node) && AtNode(2 * node + 1)
  {
    hide Pattern;
    PatternBelow(node, up);
    match node
    case 12 => assert up + "." == "-..." && up + "-" == "-..-";
    case 13 => assert up + "." == "-.-." && up + "-" == "-.--";
    case 14 => assert up + "." == "--.." && up + "-" == "--.-";
    case _ => assert up + "." == "---." && up + "-" == "----";
  }

  /** The patterns of up to four marks are the letters of the tree, and nothing where it has none. */
  lemma LettersFollowTree(node: nat)
    requires 2 <= node < |TREE|
    ensures AtNode(node)
  {
    hide Pattern, AtNode;
    TopNodes();
    ThirdRow();
    LowNodes(8, "...");
    LowNodes(9, "..-");
    LowNodes(10, ".-.");
    LowNodes(11, ".--");
    HighNodes(12, "-..");
    HighNodes(13, "-.-");
    HighNodes(14, "--.");
    HighNodes(15, "---");
    assert node < 16 || node == 2 * (node / 2) || node == 2 * (node / 2) + 1;
    assert node >= 16 ==> 8 <= node / 2 < 16;
  }

  function Repeated(c: char, n: nat): string {
    if n == 0 then "" else [c] + Repeated(c, n - 1)
  }

  lemma FewRepeated(c: char)
    ensures Repeated(c, 0) == "" && Repeated(c, 1) == [c] && Repeated(c, 2) == [c, c]
    ensures Repeated(c, 3) == [c, c, c] && Repeated(c, 4) == [c, c, c, c] && Repeated(c, 5) == [c, c, c, c, c]
  {
    assert Repeated(c, 2) == [c] + Repeated(c, 1);
    assert Repeated(c, 3) == [c] + Repeated(c, 2);
    assert Repeated(c, 4) == [c] + Repeated(c, 3);
    assert Repeated(c, 5) == [c] + Repeated(c, 4);
  }

  /** A digit up to five is so many dots and then dashes. */
  lemma LowDigitsCount(d: nat)
    requires 1 <= d <= 5
    ensures DecodeMorse(Repeated('.', d) + Repeated('-', 5 - d)) == Some(('0' as int + d) as char)
  {
    hide Repeated;
    FewRepeated('.');
    FewRepeated('-');
    match d
    case 1 => assert Repeated('.', 1) + Repeated('-', 4) == ".----";
    case 2 => assert Repeated('.', 2) + Repeated('-', 3) == "..---";
    case 3 => assert Repeated('.', 3) + Repeated('-', 2) == "...--";
    case 4 => assert Repeated('.', 4) + Repeated('-', 1) == "....-";
    case 5 => assert Repeated('.', 5) + Repeated('-', 0) == ".....";
  }

  /** Above five, and for zero as ten, it is the dashes that count. */
  lemma HighDigitsCount(d: nat)
    requires 6 <= d <= 10
    ensures DecodeMorse(Repeated('-', d - 5) + Repeated('.', 10 - d)) == Some(('0' as int + d % 10) as char)
  {
    hide Repeated;
    FewRepeated('.');
    FewRepeated('-');
    match d
    case 6 => assert Repeated('-', 1) + Repeated('.', 4) == "-....";
    case 7 => assert Repeated('-', 2) + Repeated('.', 3) == "--...";
    case 8 => assert Repeated('-', 3) + Repeated('.', 2) == "---..";
    case 9 => assert Repeated('-', 4) + Repeated('.', 1) == "----.";
    case 10 => assert Repeated('-', 5) + Repeated('.', 0) == "-----";
  }
}
