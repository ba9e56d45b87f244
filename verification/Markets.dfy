/** Which selection a football result makes win (packages/domain/src/predictions/markets.ts). */
module Markets {
  import opened Common

  datatype MarketKind = OneXTwo | CorrectScore

  const CORRECT_SCORE_SUPPLIER_MARKET_ID := 2

  function MarketKindOf(supplierMarketId: int): MarketKind {
    if supplierMarketId == CORRECT_SCORE_SUPPLIER_MARKET_ID then CorrectScore else OneXTwo
  }

  const CORRECT_SCORE_SELECTIONS: seq<string> := [
    "0-0", "1-0", "0-1", "1-1", "2-0", "0-2", "2-1", "1-2",
    "2-2", "3-0", "0-3", "3-1", "1-3", "3-2", "2-3", "3-3"]

  const CORRECT_SCORE_OTHER := "OTHER"

  predicate IsListedCorrectScore(value: string) { value in CORRECT_SCORE_SELECTIONS }

  function Digit(n: nat): char
    requires n < 10
  {
    '0' + n as char
  }

  /** A score as the template string prints it. */
  function ScoreText(n: int): (text: string)
    ensures text != ""
    decreases if n < 0 then 1 - n else n
  {
    if n < 0 then "-" + ScoreText(-n)
    else if n < 10 then [Digit(n)]
    else ScoreText(n / 10) + [Digit(n % 10)]
  }

  function CorrectScoreSelectionForResult(home: int, away: int): string {
    var exact := ScoreText(home) + "-" + ScoreText(away);
    if IsListedCorrectScore(exact) then exact else CORRECT_SCORE_OTHER
  }

  function OneXTwoSelectionForResult(home: int, away: int): string {
    if home > away then "HOME" else if home < away then "AWAY" else "DRAW"
  }

  function WinningSelection(kind: MarketKind, home: int, away: int): string {
    if kind.CorrectScore? then CorrectScoreSelectionForResult(home, away) else OneXTwoSelectionForResult(home, away)
  }

  const ONE_X_TWO_SELECTIONS: seq<string> := ["HOME", "DRAW", "AWAY"]

  function MarketSelections(kind: MarketKind): seq<string> {
    if kind.CorrectScore? then CORRECT_SCORE_SELECTIONS + [CORRECT_SCORE_OTHER] else ONE_X_TWO_SELECTIONS
  }

  /** A score of one digit prints as that digit; any other one has more characters, or a sign. */
  lemma {:induction false} ScoreTextShape(n: int)
    ensures 0 <= n < 10 ==> ScoreText(n) == [Digit(n)]
    ensures n < 0 ==> ScoreText(n)[0] == '-'
    ensures n >= 10 ==> |ScoreText(n)| >= 2 && ScoreText(n)[1] != '-'
    decreases if n < 0 then 1 - n else n
  {
    if n >= 10 {
      ScoreTextShape(n / 10);
    }
  }

  predicate SmallScore(n: int) { 0 <= n <= 3 }

  lemma ListedForm(text: string)
    ensures IsListedCorrectScore(text) <==>
            |text| == 3 && text[1] == '-' && '0' <= text[0] <= '3' && '0' <= text[2] <= '3'
  {
    if |text| == 3 && text[1] == '-' && '0' <= text[0] <= '3' && '0' <= text[2] <= '3' {
      assert text == [text[0], '-', text[2]];
    }
  }

  /** A score is listed exactly when neither side scored more than three. */
  lemma ListedExactlyUpToThree(home: int, away: int)
    ensures IsListedCorrectScore(ScoreText(home) + "-" + ScoreText(away)) <==> SmallScore(home) && SmallScore(away)
  {
    ScoreTextShape(home);
    ScoreTextShape(away);
    ListedForm(ScoreText(home) + "-" + ScoreText(away));
  }

  /** Different listed scores are different selections. */
  lemma ListedScoresDiffer(home: int, away: int, home': int, away': int)
    requires SmallScore(home) && SmallScore(away)
    requires CorrectScoreSelectionForResult(home, away) == CorrectScoreSelectionForResult(home', away')
    ensures home == home' && away == away'
  {
    ListedExactlyUpToThree(home, away);
    ListedExactlyUpToThree(home', away');
    ScoreTextShape(home);
    ScoreTextShape(away);
    ScoreTextShape(home');
    ScoreTextShape(away');
    ListedForm(CORRECT_SCORE_OTHER);
    var text, text' := ScoreText(home) + "-" + ScoreText(away), ScoreText(home') + "-" + ScoreText(away');
    assert text[0] == Digit(home) && text[2] == Digit(away);
    assert text'[0] == Digit(home') && text'[2] == Digit(away');
  }

  /** Every result makes exactly one place in its market's list win. */
  lemma ExactlyOneSelectionWins(kind: MarketKind, home: int, away: int)
    ensures exists i :: 0 <= i < |MarketSelections(kind)|
                        && MarketSelections(kind)[i] == WinningSelection(kind, home, away)
    ensures forall i, j :: 0 <= i < j < |MarketSelections(kind)| ==>
              MarketSelections(kind)[i] != MarketSelections(kind)[j]
  {
    var winner := WinningSelection(kind, home, away);
    if kind.CorrectScore? {
      if winner == CORRECT_SCORE_OTHER {
        assert MarketSelections(kind)[16] == winner;
      } else {
        var i :| 0 <= i < |CORRECT_SCORE_SELECTIONS| && CORRECT_SCORE_SELECTIONS[i] == winner;
        assert MarketSelections(kind)[i] == winner;
      }
      SelectionsDiffer();
    } else {
      var i := if home > away then 0 else if home < away then 2 else 1;
      assert MarketSelections(kind)[i] == winner;
    }
  }

  lemma SelectionsDiffer()
    ensures forall i, j :: 0 <= i < j < |MarketSelections(CorrectScore)| ==>
              MarketSelections(CorrectScore)[i] != MarketSelections(CorrectScore)[j]
  {
  }
}
