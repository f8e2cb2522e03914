/** How a typed line becomes a verb and an argument (handle_typing in mp2/adventure.c). */
module Typing {
  import opened WorldTables
  import opened WorldSpec

  const N_ENTRIES := 15

  /** cmd_list: the verb that must be typed, and how much of it at least. */
  function EntryName(i: nat): string
    requires i < N_ENTRIES
  {
    if i == 0 then "buy" else if i == 1 then "charge" else if i == 2 then "do" else if i == 3 then "drink"
    else if i == 4 then "drop" else if i == 5 then "fix" else if i == 6 then "flash" else if i == 7 then "get"
    else if i == 8 then "go" else if i == 9 then "grab" else if i == 10 then "install"
    else if i == 11 then "inventory" else if i == 12 then "sigh" else if i == 13 then "use" else "wear"
  }

  function EntryMinLen(i: nat): nat
    requires i < N_ENTRIES
  {
    if i == 0 then 3 else if i == 1 then 2 else if i == 2 then 2 else if i == 3 then 3
    else if i == 4 then 2 else if i == 5 then 3 else if i == 6 then 5 else if i == 7 then 1
    else if i == 8 then 2 else if i == 9 then 2 else if i == 10 then 3
    else if i == 11 then 1 else if i == 12 then 4 else if i == 13 then 3 else 4
  }

  function EntryVerb(i: nat): Verb
    requires i < N_ENTRIES
  {
    if i == 0 then VBuy else if i == 1 then VCharge else if i == 2 then VDo else if i == 3 then VDrink
    else if i == 4 then VDrop else if i == 5 then VFix else if i == 6 then VFlash else if i == 7 then VGet
    else if i == 8 then VGo else if i == 9 then VGet else if i == 10 then VInstall
    else if i == 11 then VInventory else if i == 12 then VSigh else if i == 13 then VUse else VWear
  }

  /** The typed word is long enough, and an initial part of the entry's verb: strncasecmp
      over the length of the word runs into the end of a shorter verb. */
  predicate Matches(i: nat, word: string)
    requires i < N_ENTRIES
  {
    EntryMinLen(i) <= |word| <= |EntryName(i)| && Same(EntryName(i)[..|word|], word)
  }

  function FirstMatch(i: nat, word: string): (r: nat)
    requires i <= N_ENTRIES
    ensures i <= r <= N_ENTRIES
    decreases N_ENTRIES - i
  {
    if i == N_ENTRIES || Matches(i, word) then i else FirstMatch(i + 1, word)
  }

  /** The text without the spaces at its front. */
  function SkipSpaces(t: string): (rest: string)
    ensures |rest| <= |t| && rest == t[|t| - |rest|..]
    ensures forall i | 0 <= i < |t| - |rest| :: t[i] == ' '
    ensures rest != "" ==> rest[0] != ' '
  {
    if t != "" && t[0] == ' ' then
      var rest := SkipSpaces(t[1..]);
      OneSpaceMore(t, rest);
      rest
    else t
  }

  lemma OneSpaceMore(t: string, rest: string)
    requires t != "" && t[0] == ' ' && |rest| < |t| && rest == t[1..][|t| - 1 - |rest|..]
    requires forall i | 0 <= i < |t| - 1 - |rest| :: t[1..][i] == ' '
    ensures rest == t[|t| - |rest|..]
    ensures forall i | 0 <= i < |t| - |rest| :: t[i] == ' '
  {
    forall i | 0 < i < |t| - |rest|
      ensures t[i] == ' '
    {
      assert t[i] == t[1..][i - 1];
    }
  }

  /** The length of the word at the front of t. */
  function WordLength(t: string): (n: nat)
    ensures n <= |t| && (n < |t| ==> t[n] == ' ')
    ensures forall i | 0 <= i < n :: t[i] != ' '
  {
    if t == "" || t[0] == ' ' then 0 else 1 + WordLength(t[1..])
  }

  datatype Parsed = Nothing | Unknown | Command(verb: Verb, arg: string)

  /** What a typed line means. */
  function Parse(text: string): Parsed {
    var t := SkipSpaces(text);
    if t == "" then Nothing
    else
      var n := WordLength(t);
      var i := FirstMatch(0, t[..n]);
      if i == N_ENTRIES then Unknown else Command(EntryVerb(i), SkipSpaces(t[n..]))
  }

  method StripSpaces(text: string) returns (rest: string)
    ensures rest == SkipSpaces(text)
  {
    var c := 0;
    while c < |text| && ' ' == text[c]
      invariant 0 <= c <= |text| && SkipSpaces(text[c..]) == SkipSpaces(text)
    {
      assert text[c..][1..] == text[c + 1..];
      c := c + 1;
    }
    rest := text[c..];
  }

  method MeasureWord(cmd: string) returns (cmdLen: nat)
    ensures cmdLen == WordLength(cmd)
  {
    cmdLen := 0;
    while cmdLen < |cmd| && ' ' != cmd[cmdLen]
      invariant cmdLen <= |cmd| && cmdLen + WordLength(cmd[cmdLen..]) == WordLength(cmd)
    {
      assert cmd[cmdLen..][1..] == cmd[cmdLen + 1..];
      cmdLen := cmdLen + 1;
    }
  }

  method LookUp(word: string) returns (idx: nat)
    ensures idx == FirstMatch(0, word)
  {
    idx := 0;
    while idx < N_ENTRIES && !Matches(idx, word)
      invariant idx <= N_ENTRIES && FirstMatch(idx, word) == FirstMatch(0, word)
    {
      idx := idx + 1;
    }
  }

  method ParseTyped(text: string) returns (p: Parsed)
    ensures p == Parse(text)
  {
    var cmd := StripSpaces(text);
    if cmd == "" {
      return Nothing;
    }
    var cmdLen := MeasureWord(cmd);
    var arg := StripSpaces(cmd[cmdLen..]);
    var idx := LookUp(cmd[..cmdLen]);
    return if idx == N_ENTRIES then Unknown else Command(EntryVerb(idx), arg);
  }

  /** Two entries' verbs already differ within the longer of their minimum lengths. */
  predicate Differ(i: nat, j: nat, k: nat)
    requires i < N_ENTRIES && j < N_ENTRIES
  {
    && k < |EntryName(i)| && k < |EntryName(j)|
    && (k < EntryMinLen(i) || k < EntryMinLen(j))
    && Lower(EntryName(i)[k]) != Lower(EntryName(j)[k])
  }

  lemma EntriesDiffer(i: nat, j: nat)
    requires i < N_ENTRIES && j < N_ENTRIES && i != j
    ensures Differ(i, j, 0) || Differ(i, j, 1) || Differ(i, j, 2)
  {
  }

  lemma MatchedLetter(i: nat, word: string, k: nat)
    requires i < N_ENTRIES && Matches(i, word) && k < |word|
    ensures k < |EntryName(i)| && Lower(EntryName(i)[k]) == Lower(word[k])
  {
    assert EntryName(i)[..|word|][k] == EntryName(i)[k];
  }

  /** No typed word matches two entries, so the order of the list does not matter. */
  lemma AtMostOneEntryMatches(i: nat, j: nat, word: string)
    requires i < N_ENTRIES && j < N_ENTRIES && Matches(i, word) && Matches(j, word)
    ensures i == j
  {
    forall k | 0 <= k < |word|
      ensures Lower(EntryName(i)[k]) == Lower(EntryName(j)[k])
    {
      MatchedLetter(i, word, k);
      MatchedLetter(j, word, k);
    }
    if i != j {
      EntriesDiffer(i, j);
    }
  }

  lemma {:induction false} FirstMatchFinds(i: nat, word: string)
    requires i <= N_ENTRIES
    ensures FirstMatch(i, word) < N_ENTRIES ==> Matches(FirstMatch(i, word), word)
    ensures forall j | i <= j < FirstMatch(i, word) :: !Matches(j, word)
    decreases N_ENTRIES - i
  {
    hide Matches;
    if i < N_ENTRIES && !Matches(i, word) {
      FirstMatchFinds(i + 1, word);
    }
  }

  /** Every entry can be issued: no earlier entry shadows it, even by its shortest abbreviation. */
  lemma EveryEntryCanBeTyped(i: nat, word: string)
    requires i < N_ENTRIES && Matches(i, word)
    ensures FirstMatch(0, word) == i
  {
    FirstMatchFinds(0, word);
    if FirstMatch(0, word) < N_ENTRIES {
      AtMostOneEntryMatches(FirstMatch(0, word), i, word);
    }
  }

  // ----- what the player types, and what it means -----

  /** The same letter, the word's own being lower case. */
  predicate SameLetter(typed: char, c: char) {
    typed == c || ('a' <= c <= 'z' && typed as int + 32 == c as int)
  }

  /** The typed word is an initial part of the word, at least so long, in whatever case. */
  predicate Abbreviates(typed: string, word: string, least: nat) {
    least <= |typed| <= |word| && forall i | 0 <= i < |typed| :: SameLetter(typed[i], word[i])
  }

  /** The words for each command, and how much of them must be typed. */
  predicate Says(typed: string, verb: Verb) {
    match verb
    case VBuy => Abbreviates(typed, "buy", 3)
    case VCharge => Abbreviates(typed, "charge", 2)
    case VDo => Abbreviates(typed, "do", 2)
    case VDrink => Abbreviates(typed, "drink", 3)
    case VDrop => Abbreviates(typed, "drop", 2)
    case VFix => Abbreviates(typed, "fix", 3)
    case VFlash => Abbreviates(typed, "flash", 5)
    case VGet => Abbreviates(typed, "get", 1) || Abbreviates(typed, "grab", 2)
    case VGo => Abbreviates(typed, "go", 2)
    case VInstall => Abbreviates(typed, "install", 3)
    case VInventory => Abbreviates(typed, "inventory", 1)
    case VSigh => Abbreviates(typed, "sigh", 4)
    case VUse => Abbreviates(typed, "use", 3)
    case VWear => Abbreviates(typed, "wear", 4)
  }

  predicate Blanks(s: string) {
    forall i | 0 <= i < |s| :: s[i] == ' '
  }

  /** The line is spaces, the word, and either nothing more, or spaces and what follows them. */
  ghost predicate Splits(line: string, lead: string, word: string, gap: string, arg: string) {
    && line == lead + word + gap + arg && Blanks(lead) && Blanks(gap)
    && word != "" && (forall i | 0 <= i < |word| :: word[i] != ' ')
    && (gap == "" ==> arg == "") && (arg != "" ==> arg[0] != ' ')
  }

  lemma SkipsBlanks(blanks: string, rest: string)
    requires Blanks(blanks) && (rest != "" ==> rest[0] != ' ')
    ensures SkipSpaces(blanks + rest) == rest
  {
    hide SkipSpaces;
    var line := blanks + rest;
    assert forall i | 0 <= i < |blanks| :: line[i] == blanks[i];
    assert rest != "" ==> line[|blanks|] == rest[0];
    assert SkipSpaces(line) != "" ==> SkipSpaces(line)[0] == line[|line| - |SkipSpaces(line)|];
    assert |line| - |SkipSpaces(line)| == |blanks|;
    assert line[|blanks|..] == rest;
  }

  lemma {:induction false} WordMeasured(word: string, rest: string)
    requires (forall i | 0 <= i < |word| :: word[i] != ' ') && (rest != "" ==> rest[0] == ' ')
    ensures WordLength(word + rest) == |word|
  {
    if word == "" {
      assert word + rest == rest;
    } else {
      WordMeasured(word[1..], rest);
      assert (word + rest)[1..] == word[1..] + rest;
    }
  }

  /** Parsing finds the parts of a line. */
  lemma PartsFound(line: string, lead: string, word: string, gap: string, arg: string)
    requires Splits(line, lead, word, gap, arg)
    ensures var t := SkipSpaces(line);
            t != "" && WordLength(t) == |word| && t[..|word|] == word && SkipSpaces(t[|word|..]) == arg
  {
    hide SkipSpaces, WordLength;
    var t := word + (gap + arg);
    assert line == lead + t;
    assert t[0] == word[0];
    SkipsBlanks(lead, t);
    WordMeasured(word, gap + arg);
    assert t[..|word|] == word && t[|word|..] == gap + arg;
    SkipsBlanks(gap, arg);
  }

  /** The words of the list, letter by letter, are those for its commands. */
  lemma EntryWords(i: nat)
    requires i < N_ENTRIES
    ensures var (name, least, verb) := (EntryName(i), EntryMinLen(i), EntryVerb(i));
            && (verb == VBuy <==> name == "buy" && least == 3)
            && (verb == VCharge <==> name == "charge" && least == 2)
            && (verb == VDo <==> name == "do" && least == 2)
            && (verb == VDrink <==> name == "drink" && least == 3)
            && (verb == VDrop <==> name == "drop" && least == 2)
            && (verb == VFix <==> name == "fix" && least == 3)
            && (verb == VFlash <==> name == "flash" && least == 5)
            && (verb == VGet <==> (name == "get" && least == 1) || (name == "grab" && least == 2))
            && (verb == VGo <==> name == "go" && least == 2)
            && (verb == VInstall <==> name == "install" && least == 3)
            && (verb == VInventory <==> name == "inventory" && least == 1)
            && (verb == VSigh <==> name == "sigh" && least == 4)
            && (verb == VUse <==> name == "use" && least == 3)
            && (verb == VWear <==> name == "wear" && least == 4)
  {
  }

  lemma LowerCaseWords(i: nat)
    requires i < N_ENTRIES
    ensures forall k | 0 <= k < |EntryName(i)| :: 'a' <= EntryName(i)[k] <= 'z'
  {
  }

  lemma LetterMatches(typed: char, c: char)
    requires 'a' <= c <= 'z'
    ensures SameLetter(typed, c) <==> Lower(c) == Lower(typed)
  {
  }

  lemma MatchesAbbreviation(i: nat, word: string)
    requires i < N_ENTRIES
    ensures Matches(i, word) <==> Abbreviates(word, EntryName(i), EntryMinLen(i))
  {
    hide EntryName, EntryMinLen, Lower, SameLetter;
    LowerCaseWords(i);
    var name := EntryName(i);
    if |word| <= |name| {
      forall k | 0 <= k < |word|
        ensures SameLetter(word[k], name[k]) <==> Lower(name[..|word|][k]) == Lower(word[k])
      {
        LetterMatches(word[k], name[k]);
      }
    }
  }

  /** The entry found for a word is one for the command that the word says. */
  lemma WordChosen(word: string, verb: Verb)
    ensures FirstMatch(0, word) < N_ENTRIES && EntryVerb(FirstMatch(0, word)) == verb <==> Says(word, verb)
  {
    hide FirstMatch, EntryName, EntryMinLen, EntryVerb, Matches, Abbreviates;
    FirstMatchFinds(0, word);
    var i := FirstMatch(0, word);
    if i < N_ENTRIES {
      MatchesAbbreviation(i, word);
      EntryWords(i);
    }
    if Says(word, verb) {
      var k := EntryFor(word, verb);
      MatchesAbbreviation(k, word);
      EveryEntryCanBeTyped(k, word);
    }
  }

  lemma EntryFor(word: string, verb: Verb) returns (i: nat)
    requires Says(word, verb)
    ensures i < N_ENTRIES && EntryVerb(i) == verb && Abbreviates(word, EntryName(i), EntryMinLen(i))
  {
    hide Abbreviates;
    match verb {
      case VBuy => i := 0;
      case VCharge => i := 1;
      case VDo => i := 2;
      case VDrink => i := 3;
      case VDrop => i := 4;
      case VFix => i := 5;
      case VFlash => i := 6;
      case VGet => i := if Abbreviates(word, "get", 1) then 7 else 9;
      case VGo => i := 8;
      case VInstall => i := 10;
      case VInventory => i := 11;
      case VSigh => i := 12;
      case VUse => i := 13;
      case VWear => i := 14;
    }
  }

  lemma WhatIsSaidIsMeant(line: string, lead: string, word: string, gap: string, verb: Verb, arg: string)
    requires Splits(line, lead, word, gap, arg) && Says(word, verb)
    ensures Parse(line) == Command(verb, arg)
  {
    hide Says, FirstMatch, EntryVerb, SkipSpaces, WordLength, Splits;
    PartsFound(line, lead, word, gap, arg);
    WordChosen(word, verb);
  }

  lemma WhatIsMeantIsSaid(line: string, verb: Verb, arg: string) returns (lead: string, word: string, gap: string)
    requires Parse(line) == Command(verb, arg)
    ensures Splits(line, lead, word, gap, arg) && Says(word, verb)
  {
    hide Says, FirstMatch, EntryVerb, SkipSpaces, WordLength, Splits;
    var t := SkipSpaces(line);
    word := t[..WordLength(t)];
    lead, gap := SplitLine(line);
    WordChosen(word, verb);
  }

  /** A line means a command with an argument exactly if it can be split into one of the command's
      words, however abbreviated, and that argument, with any spaces before and between them. */
  lemma ParsesExactly(line: string, verb: Verb, arg: string)
    ensures Parse(line) == Command(verb, arg)
            <==> exists lead, word, gap :: Splits(line, lead, word, gap, arg) && Says(word, verb)
  {
    hide Says, Parse, Splits;
    if lead, word, gap :| Splits(line, lead, word, gap, arg) && Says(word, verb) {
      WhatIsSaidIsMeant(line, lead, word, gap, verb, arg);
    }
    if Parse(line) == Command(verb, arg) {
      var lead, word, gap := WhatIsMeantIsSaid(line, verb, arg);
    }
  }

  lemma SplitLine(line: string) returns (lead: string, gap: string)
    requires SkipSpaces(line) != ""
    ensures var t := SkipSpaces(line);
            var n := WordLength(t);
            Splits(line, lead, t[..n], gap, SkipSpaces(t[n..]))
  {
    hide SkipSpaces, WordLength, Blanks, Splits;
    var t: string;
    var arg: string;
    lead, t := CutSpaces(line);
    var word, rest := CutWord(t);
    gap, arg := CutSpaces(rest);
    Joined(line, lead, t, word, rest, gap, arg);
  }

  lemma CutWord(t: string) returns (word: string, rest: string)
    requires t != "" && t[0] != ' '
    ensures t == word + rest && word == t[..WordLength(t)] && rest == t[WordLength(t)..]
    ensures word != "" && (forall i | 0 <= i < |word| :: word[i] != ' ') && (rest != "" ==> rest[0] == ' ')
  {
    word, rest := t[..WordLength(t)], t[WordLength(t)..];
  }

  lemma Joined(line: string, lead: string, t: string, word: string, rest: string, gap: string, arg: string)
    requires line == lead + t && t == word + rest && rest == gap + arg && Blanks(lead) && Blanks(gap)
    requires word != "" && (forall i | 0 <= i < |word| :: word[i] != ' ') && (rest != "" ==> rest[0] == ' ')
    requires arg != "" ==> arg[0] != ' '
    ensures Splits(line, lead, word, gap, arg)
  {
    Regrouped(lead, word, gap, arg);
    if gap == "" {
      assert rest == arg;
    }
  }

  lemma CutSpaces(s: string) returns (blanks: string, rest: string)
    ensures rest == SkipSpaces(s) && s == blanks + rest && Blanks(blanks)
  {
    hide SkipSpaces;
    rest := SkipSpaces(s);
    blanks := s[..|s| - |rest|];
  }

  lemma Regrouped(a: string, b: string, c: string, d: string)
    ensures a + (b + (c + d)) == a + b + c + d
  {
  }

  /** A line means nothing at all exactly if it is blank. */
  lemma NothingExactly(line: string)
    ensures Parse(line) == Nothing <==> Blanks(line)
  {
    hide SkipSpaces, WordLength, FirstMatch;
    if Blanks(line) {
      SkipsBlanks(line, "");
      assert line + "" == line;
    }
  }
}
