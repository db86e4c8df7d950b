/** Blind judging: reading a ballot out of raw text, and which side the replay was put on. */
module Judge {
  import opened Common
  import opened Text

  datatype Side = A | B {
    function Other(): Side {
      if this == A then B else A
    }
  }

  datatype Verdict = Win | Tie | Loss {
    function Mirror(): Verdict {
      match this
      case Win => Loss
      case Loss => Win
      case Tie => Tie
    }
  }

  const TIE_WORDS: seq<string> := ["平局", "持平", "相当", "tie", "draw"]

  predicate IsAlnum(c: char) {
    '0' <= c <= '9' || 'A' <= c <= 'Z' || 'a' <= c <= 'z'
  }

  /** A letter A or B with no ASCII letter or digit on either side. */
  predicate StandsAlone(s: string, i: nat)
    requires i < |s|
  {
    && (s[i] == 'A' || s[i] == 'B')
    && (i > 0 ==> !IsAlnum(s[i - 1]))
    && (i + 1 < |s| ==> !IsAlnum(s[i + 1]))
  }

  /** `firstStandaloneAB`: the scan stops at the first letter that stands alone. */
  method FirstStandalone(raw: string) returns (side: Option<Side>)
    ensures side == FirstFrom(Upper(raw), 0)
  {
    var up := Upper(raw);
    var i := 0;
    while i < |up|
      invariant 0 <= i <= |up|
      invariant FirstFrom(up, 0) == FirstFrom(up, i)
    {
      var c := up[i];
      if (c != 'A' && c != 'B') || (i > 0 && IsAlnum(up[i - 1])) || (i + 1 < |up| && IsAlnum(up[i + 1])) {
        i := i + 1;
        continue;
      }
      return Some(if c == 'A' then A else B);
    }
    side := None;
  }

  function FirstFrom(s: string, i: nat): (side: Option<Side>)
    requires i <= |s|
    decreases |s| - i
  {
    if i == |s| then None
    else if StandsAlone(s, i) then Some(if s[i] == 'A' then A else B)
    else FirstFrom(s, i + 1)
  }

  /** k is the first place from i on where a letter stands alone. */
  ghost predicate FirstAlone(s: string, i: nat, k: int) {
    i <= k < |s| && StandsAlone(s, k) && forall j :: i <= j < k ==> !StandsAlone(s, j)
  }

  /** The letter used is the first that stands alone, and no letter is used exactly when none does. */
  lemma {:induction false} FirstFromMeans(s: string, i: nat)
    requires i <= |s|
    ensures FirstFrom(s, i).None? <==> forall k :: i <= k < |s| ==> !StandsAlone(s, k)
    ensures forall k :: FirstAlone(s, i, k) ==> FirstFrom(s, i) == Some(if s[k] == 'A' then A else B)
    decreases |s| - i
  {
    if i < |s| && !StandsAlone(s, i) {
      FirstFromMeans(s, i + 1);
      assert forall k :: FirstAlone(s, i, k) ==> k != i && FirstAlone(s, i + 1, k);
    }
  }

  /** Letters next to letters or digits do not stand alone; letters next to anything else do. */
  lemma AloneExamples()
    ensures FirstFrom("AB", 0) == None && FirstFrom("A1", 0) == None && FirstFrom("XA", 0) == None
    ensures FirstFrom("回复A更好", 0) == Some(A) && FirstFrom("(B)", 0) == Some(B) && FirstFrom("AB,B.A", 0) == Some(B)
  {
    var word := "AB,B.A";
    assert !StandsAlone(word, 0) && !StandsAlone(word, 1) && !StandsAlone(word, 2) && StandsAlone(word, 3);
    FirstFromMeans(word, 0);
    assert FirstAlone(word, 0, 3);
    var text := "回复A更好";
    FirstFromMeans(text, 0);
    assert FirstAlone(text, 0, 2);
    FirstFromMeans("(B)", 0);
    assert FirstAlone("(B)", 0, 1);
    FirstFromMeans("AB", 0);
    FirstFromMeans("A1", 0);
    FirstFromMeans("XA", 0);
  }

  /** What a raw answer says, whoever stands on which side. */
  datatype Ballot = Even | Names(side: Side) | Spoiled

  function ReadBallot(raw: string): Ballot {
    var s := Trim(raw);
    var lower := Lower(s);
    if exists k :: 0 <= k < |TIE_WORDS| && Contains(lower, TIE_WORDS[k]) then Even
    else
      match FirstFrom(Upper(s), 0)
      case None => Spoiled
      case Some(side) => Names(side)
  }

  /** `parseJudgeVerdict`: the verdict from the replay's point of view, and whether the vote is valid. */
  method ParseJudgeVerdict(raw: string, replaySide: Side) returns (verdict: Verdict, parsed: bool)
    ensures (verdict, parsed) == Counted(ReadBallot(raw), replaySide)
  {
    var s := Trim(raw);
    var lower := Lower(s);
    for k := 0 to |TIE_WORDS|
      invariant forall j :: 0 <= j < k ==> !Contains(lower, TIE_WORDS[j])
    {
      if Contains(lower, TIE_WORDS[k]) {
        return Tie, true;
      }
    }
    var side := FirstStandalone(s);
    match side {
      case None => return Tie, false;
      case Some(winner) => return if winner == replaySide then Win else Loss, true;
    }
  }

  function Counted(ballot: Ballot, replaySide: Side): (Verdict, bool) {
    match ballot
    case Even => (Tie, true)
    case Spoiled => (Tie, false)
    case Names(side) => (if side == replaySide then Win else Loss, true)
  }

  /** One of the words for a tie stands somewhere in the text. */
  ghost predicate HasTieWord(s: string) {
    StandsIn(s, "平局") || StandsIn(s, "持平") || StandsIn(s, "相当") || StandsIn(s, "tie") || StandsIn(s, "draw")
  }

  lemma TieWordMeans(s: string)
    ensures (exists k :: 0 <= k < |TIE_WORDS| && Contains(s, TIE_WORDS[k])) <==> HasTieWord(s)
  {
    ContainsMeans(s, TIE_WORDS[0]);
    ContainsMeans(s, TIE_WORDS[1]);
    ContainsMeans(s, TIE_WORDS[2]);
    ContainsMeans(s, TIE_WORDS[3]);
    ContainsMeans(s, TIE_WORDS[4]);
    assert TIE_WORDS[0] == "平局" && TIE_WORDS[1] == "持平" && TIE_WORDS[2] == "相当";
    assert TIE_WORDS[3] == "tie" && TIE_WORDS[4] == "draw";
  }

  /** What a text says. A word for a tie anywhere makes a valid tie, whatever letters stand beside it; without
      one the first letter that stands alone wins; and only without either is the vote an invalid tie. */
  lemma VerdictMeans(raw: string, replaySide: Side)
    ensures var (verdict, parsed) := Counted(ReadBallot(raw), replaySide);
            var text, up := Lower(Trim(raw)), Upper(Trim(raw));
            && (HasTieWord(text) ==> verdict == Tie && parsed)
            && (!HasTieWord(text) ==> forall k :: FirstAlone(up, 0, k) ==>
                  verdict == (if (up[k] == 'A') == (replaySide == A) then Win else Loss) && parsed)
            && (!parsed <==> !HasTieWord(text) && forall k :: 0 <= k < |up| ==> !StandsAlone(up, k))
            && (!parsed ==> verdict == Tie)
  {
    TieWordMeans(Lower(Trim(raw)));
    FirstFromMeans(Upper(Trim(raw)), 0);
    BallotMeans(raw);
    LetterAlone(Upper(Trim(raw)));
  }

  lemma LetterAlone(up: string)
    ensures forall k :: FirstAlone(up, 0, k) ==> up[k] == 'A' || up[k] == 'B'
  {
  }

  lemma BallotMeans(raw: string)
    ensures var s := Trim(raw);
            ReadBallot(raw) ==
              if exists k :: 0 <= k < |TIE_WORDS| && Contains(Lower(s), TIE_WORDS[k]) then Even
              else if FirstFrom(Upper(s), 0).Some? then Names(FirstFrom(Upper(s), 0).value)
              else Spoiled
  {
  }

  /** Any raw text counts oppositely for the two sides, and is valid for both or for neither. */
  lemma SidesMirror(raw: string, side: Side)
    ensures Counted(ReadBallot(raw), side.Other()) ==
            (Counted(ReadBallot(raw), side).0.Mirror(), Counted(ReadBallot(raw), side).1)
    ensures Counted(ReadBallot(raw), side).0 == Tie || Counted(ReadBallot(raw), side).1
  {
    assert side.Other() != side;
  }

  /** `buildJudgePrompt` up to its fixed wording: the trigger and the two replies, trimmed, by side. */
  datatype Prompt = Prompt(trigger: string, sideA: string, sideB: string)

  function BuildPrompt(trigger: string, history: string, replay: string, replaySide: Side): Prompt {
    if replaySide == A then Prompt(trigger, Trim(replay), Trim(history))
    else Prompt(trigger, Trim(history), Trim(replay))
  }

  datatype Preference = First | Second | Neither {
    function Swapped(): Preference {
      match this
      case First => Second
      case Second => First
      case Neither => Neither
    }
  }

  /** The judge has an opinion on two replies that does not depend on which is shown first, and its
      text names the letter of the reply it prefers. */
  ghost predicate NamesPreferred(judge: Prompt -> string, prefers: (string, string, string) -> Preference) {
    && (forall t, x, y :: prefers(t, x, y) == prefers(t, y, x).Swapped())
    && (forall p: Prompt :: ReadBallot(judge(p)) ==
          match prefers(p.trigger, p.sideA, p.sideB)
          case First => Names(A)
          case Second => Names(B)
          case Neither => Even)
  }

  /** For such a judge the side the replay is put on is irrelevant: the verdict is its opinion. */
  lemma PositionNeutral(judge: Prompt -> string, prefers: (string, string, string) -> Preference,
                        trigger: string, history: string, replay: string, side: Side)
    requires NamesPreferred(judge, prefers)
    ensures Counted(ReadBallot(judge(BuildPrompt(trigger, history, replay, side))), side) ==
            match prefers(trigger, Trim(replay), Trim(history))
            case First => (Win, true)
            case Second => (Loss, true)
            case Neither => (Tie, true)
  {
    var p := BuildPrompt(trigger, history, replay, side);
    assert prefers(trigger, Trim(replay), Trim(history)) == prefers(trigger, Trim(history), Trim(replay)).Swapped();
    assert ReadBallot(judge(p)) ==
      match prefers(p.trigger, p.sideA, p.sideB)
      case First => Names(A)
      case Second => Names(B)
      case Neither => Even;
  }

  predicate Mirrored(onA: Ballot, onB: Ballot) {
    match onA
    case Even => onB == Even
    case Spoiled => onB == Spoiled
    case Names(side) => onB == Names(side.Other())
  }

  lemma SameCountIff(onA: Ballot, onB: Ballot)
    ensures Counted(onA, A) == Counted(onB, B) <==> Mirrored(onA, onB)
  {
  }

  /** For any judge whatever: the two placements of a replay get the same verdict and validity exactly when the
      two ballots mirror each other. */
  lemma NeutralIff(judge: Prompt -> string, trigger: string, history: string, replay: string)
    ensures var onA := ReadBallot(judge(BuildPrompt(trigger, history, replay, A)));
            var onB := ReadBallot(judge(BuildPrompt(trigger, history, replay, B)));
            Counted(onA, A) == Counted(onB, B) <==> Mirrored(onA, onB)
  {
    SameCountIff(ReadBallot(judge(BuildPrompt(trigger, history, replay, A))),
                 ReadBallot(judge(BuildPrompt(trigger, history, replay, B))));
  }

  /** A judge that always names one letter gets opposite verdicts on the two sides. */
  lemma LetterBiasShows(judge: Prompt -> string, letter: Side, trigger: string, history: string, replay: string)
    requires forall p :: ReadBallot(judge(p)) == Names(letter)
    ensures Counted(ReadBallot(judge(BuildPrompt(trigger, history, replay, letter))), letter).0 == Win
    ensures Counted(ReadBallot(judge(BuildPrompt(trigger, history, replay, letter.Other()))), letter.Other()).0 == Loss
  {
    assert letter.Other() != letter;
  }
}
