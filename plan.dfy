/** The `/plan` and `/wen` commands of src/commands/planCommand.ts: a fixed
    answer into which the asked-about feature is spliced. */
module PlanCommand {
  import opened Common
  import CommandHandler

  const Description := "Check if a feature is part of the plan"

  /** Both names share the description and the single "feature" option
      (lines 17-39). */
  const PlanHandler := CommandHandler.Handler(
    "PlanCommand",
    [CommandHandler.CommandData("plan", Description, None),
     CommandHandler.CommandData("wen", Description, None)],
    false, false, false, None)

  const OptionNames: seq<string> := ["feature"]

  /** The reply of line 15, cut around its placeholder. */
  const Question := "> Will SerenityOS support "
  const Placeholder := "`$THING`"
  const FaqLink := "See: [FAQ](<https://github.com/SerenityOS/serenity/blob/master/Documentation/FAQ.md>)"
  const NoPlan := "?\nMaybe. Maybe not. There is no plan.\n\n"
  const Answer := NoPlan + FaqLink
  const BaseReply := Question + Placeholder + Answer

  /** `run` (lines 41-51): the option is replaced into the reply when it is
      present and not empty. */
  function Reply(feature: Option<string>): string
  {
    if feature.Some? && feature.value != "" then ReplaceFirst(BaseReply, Placeholder, feature.value)
    else BaseReply
  }

  lemma PlaceholderFirst()
    ensures IndexOf(BaseReply, Placeholder) == Some(|Question|)
  {
    assert Placeholder[0] == '`';
    assert '`' !in Question;
    FirstOccurrence(Question, Placeholder, Answer);
  }

  /** Without a feature, or with an empty one, the reply is the fixed text;
      otherwise the backticked placeholder is replaced by the feature as
      `String.prototype.replace` substitutes it, and by the feature itself
      when it has no `$`. Either way the reply ends with the FAQ link. */
  lemma ReplyCases(feature: Option<string>)
    ensures feature.None? || feature == Some("") ==> Reply(feature) == BaseReply
    ensures feature.Some? && feature.value != "" ==>
              Reply(feature) == Question + Substitution(feature.value, Placeholder, Question, Answer) + Answer
    ensures feature.Some? && feature.value != "" && '$' !in feature.value ==>
              Reply(feature) == Question + feature.value + Answer
    ensures exists head :: Reply(feature) == head + FaqLink
  {
    PlaceholderFirst();
    var shown := Placeholder;
    if feature.Some? && feature.value != "" {
      ReplaceBetween(Question, Placeholder, Answer, feature.value);
      shown := Substitution(feature.value, Placeholder, Question, Answer);
      if '$' !in feature.value {
        SubstitutionPlain(feature.value, Placeholder, Question, Answer);
      }
    }
    assert Reply(feature) == Question + shown + (NoPlan + FaqLink);
    EndsWithLink(Question + shown, NoPlan, FaqLink);
  }

  lemma EndsWithLink(head: string, middle: string, link: string)
    ensures head + (middle + link) == (head + middle) + link
  {
  }
}
