/** The exit-keyword test applied to every user input before the phase dispatch. */
module ExitCommand {
  import opened Text

  const ExitKeywords: seq<string> := ["exit", "quit", "bye"]

  /** `any(cmd in user_input.lower() for cmd in ["exit", "quit", "bye"])`. */
  predicate IsExitCommand(input: string)
  {
    var low := Lower(input);
    Contains(low, "exit") || Contains(low, "quit") || Contains(low, "bye")
  }

  /** The test holds exactly when some keyword occurs somewhere in the lower-cased input. */
  lemma ExitIffKeywordOccurs(input: string)
    ensures IsExitCommand(input) <==>
      exists w, i: nat :: w in ExitKeywords && OccursAt(Lower(input), w, i)
  {
    var low := Lower(input);
    ContainsIffOccurs(low, "exit");
    ContainsIffOccurs(low, "quit");
    ContainsIffOccurs(low, "bye");
    if IsExitCommand(input) {
      if Contains(low, "exit") {
        var i: nat :| OccursAt(low, "exit", i);
        assert "exit" in ExitKeywords;
      } else if Contains(low, "quit") {
        var i: nat :| OccursAt(low, "quit", i);
        assert "quit" in ExitKeywords;
      } else {
        var i: nat :| OccursAt(low, "bye", i);
        assert "bye" in ExitKeywords;
      }
    }
  }

  /** The test ignores case: the input and its lower-cased form are judged alike. */
  lemma ExitIgnoresCase(input: string)
    ensures IsExitCommand(Lower(input)) == IsExitCommand(input)
  {
    LowerIdempotent(input);
  }

  /** Any keyword at any position is recognised, wherever it stands and whatever its case. */
  lemma ExitKeywordAnywhere(before: string, word: string, after: string)
    requires Lower(word) in ExitKeywords
    ensures IsExitCommand(before + word + after)
  {
    var input := before + word + after;
    var low := Lower(input);
    var w := Lower(word);
    forall k | 0 <= k < |w|
      ensures low[|before| + k] == w[k]
    {
      assert input[|before| + k] == word[k];
    }
    assert OccursAt(low, w, |before|);
    ContainsIffOccurs(low, w);
  }

  /** "Ok, BYE!" ends the conversation, whatever the case of the keyword. */
  lemma ShoutedByeIsExit()
    ensures IsExitCommand("Ok, BYE!")
  {
    assert Lower("BYE") == "bye";
    ExitKeywordAnywhere("Ok, ", "BYE", "!");
    assert "Ok, " + "BYE" + "!" == "Ok, BYE!";
  }

}
