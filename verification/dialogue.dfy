/** The dialogue batches the tutorial script enqueues, one batch per stage
    (handleLevelSpecifics_kLevelTutorial_0 in
    src/interface/in-game-interface.cpp). Each string is one page of the
    dialogue box. */
module Dialogue {

  type Batch = seq<string>

  const Stage0: Batch := [
    "... (Press [E]. That's all you need to know.)\n(For now.)",
    "... (Good job! Now...)",
    "... (Did you know you could move around with [W][A][S][D]?)",
    "... (C'mon, give it a little try!)"
  ]

  const Stage1: Batch := [
    "... (Pssst, hey you!)",
    "... (Yes, you!)",
    "... (Do you see that cat up there?)",
    "... (It says it wanna talk to you!)",
    "... (So, uh, just go there, I guess?)",
    "... (You don't want to disappoint a cat, do you?)"
  ]

  const Stage2: Batch := [
    "... (Pssst, hey you!)",
    "... (Yes, you again! Like, who else is here?)",
    "... (Do you see that cat on your left?)",
    "... (It says it wanna talk to you!)",
    "... (So, uh, just go there, I guess?)",
    "... (You don't want to disappoint a cat, do you?)"
  ]

  const OneMoreThing: string := "... (Oh, one more thing.)"
  const SignWarning: string := "... (Make sure you read the sign before going any further.)"

  /** The first six pages of stage 3, common to both versions below. */
  const Stage3Opening: Batch := [
    "... (Pssst, hey you!)",
    "... (I hope you talked to both cats.)",
    "... (Like, the developer who created all this didn't really provide me with a proper mechanism to track such interactions, so I really do not know.)",
    "... (But, uh, if you haven't, can you, like, go back and talk to them?)",
    "... (Because, uh, you'll never see them again? C'mon, everyone knows that this tutorial is a one-time thing.)",
    "..."
  ]

  /** Stage 3 as the code builds it: the two closing literals have no comma
      between them, so the compiler joins them into a single page. */
  const Stage3AsWritten: Batch := Stage3Opening + [OneMoreThing + SignWarning]

  /** Stage 3 with one page per utterance, as every other batch is laid
      out: the evidently intended batch, which the script does not use. */
  const Stage3: Batch := Stage3Opening + [OneMoreThing, SignWarning]

  const Stage4: Batch := [
    "... (You might want to press [SPACE].)",
    "... (Because, uh, you might be dead otherwise.)"
  ]

  const Stage5: Batch := ["... (You might want to, uh, press [1].)"]

  const Stage6: Batch := ["... (You might want to, uh, look behind you.)"]

  const Stage7: Batch := [
    "... (You might want to, uh, keep going?)",
    "... (Nothing'll happen this time, I promise!)",
    "... (You've done well.)"
  ]

  /** The batch of stage `stage` of the tutorial, as the code enqueues it:
      stage 3 shows the joined page, so its sign warning has no page of its
      own. */
  function BatchFor(stage: int): (b: Batch)
    requires 0 <= stage <= 7
    ensures |b| > 0
    ensures stage == 3 ==> |b| == 7 && SignWarning !in b
  {
    Stage3AsWrittenJoinsPages();
    match stage
    case 0 => Stage0
    case 1 => Stage1
    case 2 => Stage2
    case 3 => Stage3AsWritten
    case 4 => Stage4
    case 5 => Stage5
    case 6 => Stage6
    case _ => Stage7
  }

  /** As written, stage 3 shows seven pages, the last of which holds two
      utterances: the sign warning never gets a page of its own. */
  lemma Stage3AsWrittenJoinsPages()
    ensures |Stage3AsWritten| == 7
    ensures Stage3AsWritten[6] == OneMoreThing + SignWarning
    ensures Stage3AsWritten[6][..|OneMoreThing|] == OneMoreThing
    ensures SignWarning !in Stage3AsWritten
  {
    assert (OneMoreThing + SignWarning)[..|OneMoreThing|] == OneMoreThing;
    forall i | 0 <= i < |Stage3AsWritten|
      ensures Stage3AsWritten[i] != SignWarning
    {
      assert |Stage3AsWritten[i]| != |SignWarning|;
    }
  }

  /** The intended layout: eight pages, "one more thing" on its own page and
      the sign warning closing the batch; dropping the split gives back the
      code's seven pages. */
  lemma Stage3SignWarningOwnPage()
    ensures |Stage3| == 8
    ensures Stage3[6] == OneMoreThing && Stage3[7] == SignWarning
    ensures Stage3[..6] + [Stage3[6] + Stage3[7]] == Stage3AsWritten
  {
  }
}
