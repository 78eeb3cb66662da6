/** Feedback over SMS: what each call saves and sends, as the sequence of its
    effects on the feedback repository and the SMS sender. */
module SmsFeedback {
  import opened Wrappers
  import opened Text

  datatype Feedback = Feedback(userId: Option<string>, feedbackText: string, createdAt: int, sentiment: Option<string>)

  datatype Effect =
    | Saved(feedback: Feedback)
    | Sent(phoneNumber: Option<string>, message: string)

  const PromptMessage: string := "Olá! Por favor, envie seu feedback respondendo a esta mensagem."
  const ThankYouMessage: string := "Obrigado pelo seu feedback!"

  /** The feedback saved by the effects, in order. */
  function SavedFeedback(effects: seq<Effect>): seq<Feedback> {
    if |effects| == 0 then []
    else
      SavedFeedback(effects[..|effects| - 1])
      + (match effects[|effects| - 1] case Saved(f) => [f] case Sent(_, _) => [])
  }

  /** The text of every SMS sent by the effects, in order. */
  function SentMessages(effects: seq<Effect>): seq<string> {
    if |effects| == 0 then []
    else
      SentMessages(effects[..|effects| - 1])
      + (match effects[|effects| - 1] case Sent(_, m) => [m] case Saved(_) => [])
  }

  /** `SubmitFeedbackAsync(userId, message)` */
  function SubmitFeedback(userId: Option<string>, message: Option<string>, now: int): (effects: seq<Effect>)
    ensures SentMessages(effects) == []
    ensures IsNullOrEmpty(message) ==> SavedFeedback(effects) == []
    ensures !IsNullOrEmpty(message) ==>
      SavedFeedback(effects) == [Feedback(userId, message.value, now, None)]
  {
    if IsNullOrEmpty(message) then []
    else [Saved(Feedback(userId, message.value, now, None))]
  }

  /** `CollectFeedbackAsync(phoneNumber, feedback)`: always answers by SMS;
      saves only a non-empty feedback, before thanking. */
  function CollectFeedback(phoneNumber: Option<string>, feedback: Option<string>, now: int): (effects: seq<Effect>)
    ensures IsNullOrEmpty(feedback) ==> SavedFeedback(effects) == [] && SentMessages(effects) == [PromptMessage]
    ensures !IsNullOrEmpty(feedback) ==>
      && SavedFeedback(effects) == [Feedback(phoneNumber, feedback.value, now, None)]
      && SentMessages(effects) == [ThankYouMessage]
      && effects[0].Saved?
    ensures forall k :: 0 <= k < |effects| && effects[k].Sent? ==> effects[k].phoneNumber == phoneNumber
  {
    if IsNullOrEmpty(feedback) then [Sent(phoneNumber, PromptMessage)]
    else
      var effects := [Saved(Feedback(phoneNumber, feedback.value, now, None)), Sent(phoneNumber, ThankYouMessage)];
      assert effects[..1] == [effects[0]] && [effects[0]][..0] == [];
      assert SavedFeedback([effects[0]]) == [effects[0].feedback];
      assert SentMessages([effects[0]]) == [];
      effects
  }

  /** A collected feedback is stored exactly as a submission from the phone
      number would store it; the two differ only in the SMS answer. */
  lemma CollectSavesLikeSubmit(phoneNumber: Option<string>, feedback: Option<string>, now: int)
    ensures SavedFeedback(CollectFeedback(phoneNumber, feedback, now)) == SavedFeedback(SubmitFeedback(phoneNumber, feedback, now))
    ensures |SentMessages(CollectFeedback(phoneNumber, feedback, now))| == 1
  {
  }
}
