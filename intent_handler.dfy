/** `match_intent` (naturalassistant/intent_handler.py): the first stored phrase, in
    the dictionary's order, that occurs in the message, both lower-cased. */
module IntentHandler {
  import opened Common
  import opened AssistantConfig

  /** `phrase.lower() in message.lower()`. */
  predicate PhraseMatches(phrase: string, message: string)
  {
    IsSubstring(Lower(phrase), Lower(message))
  }

  /** The intent of the first entry whose phrase matches, or None. */
  function MatchIntent(message: string, t: IntentTable): (r: Option<Intent>)
    ensures r.None? <==> forall i :: 0 <= i < |t| ==> !PhraseMatches(t[i].phrase, message)
    ensures r.Some? ==> exists i :: (0 <= i < |t| && t[i].intent == r.value && PhraseMatches(t[i].phrase, message) &&
      forall j :: 0 <= j < i ==> !PhraseMatches(t[j].phrase, message))
  {
    if t == [] then None
    else if PhraseMatches(t[0].phrase, message) then Some(t[0].intent)
    else
      var r := MatchIntent(message, t[1..]);
      assert forall i :: 1 <= i < |t| ==> t[i] == t[1..][i - 1];
      r
  }

  /** The empty phrase occurs in every message. */
  lemma EmptyPhraseMatches(message: string)
    ensures PhraseMatches("", message)
  {
    assert Lower("") == "";
    EmptyIsSubstring(Lower(message));
  }

  /** Upper and lower case in the message make no difference. */
  lemma {:induction false} MatchIgnoresCase(message: string, t: IntentTable)
    ensures MatchIntent(Lower(message), t) == MatchIntent(message, t)
  {
    LowerIdempotent(message);
    if t != [] {
      MatchIgnoresCase(message, t[1..]);
    }
  }

  /** The result is the record stored under a phrase that matches. */
  lemma MatchIsStored(message: string, t: IntentTable)
    requires Keyed(t)
    ensures var r := MatchIntent(message, t);
      r.Some? ==> exists p :: PhraseMatches(p, message) && Lookup(t, p) == r
  {
    var r := MatchIntent(message, t);
    if r.Some? {
      var i :| 0 <= i < |t| && t[i].intent == r.value && PhraseMatches(t[i].phrase, message) &&
        forall j :: 0 <= j < i ==> !PhraseMatches(t[j].phrase, message);
      LookupAt(t, i);
    }
  }

  /** In a keyed table an entry's phrase reads back as that entry's record. */
  lemma {:induction false} LookupAt(t: IntentTable, i: nat)
    requires Keyed(t) && i < |t|
    ensures Lookup(t, t[i].phrase) == Some(t[i].intent)
  {
    if i > 0 {
      LookupAt(t[1..], i - 1);
    }
  }
}
