/** The assistant's stored settings (naturalassistant/config_manager.py): the intents,
    a dictionary from trigger phrase to the action it runs, and the two API keys. A
    Python dictionary keeps its keys in insertion order, so the intents are modelled
    as a list of entries with distinct phrases: assigning an existing phrase replaces
    its entry where it stands, a new phrase goes last, and `pop` removes the entry. */
module AssistantConfig {
  import opened Common

  type RoleId = nat

  /** A stored intent; `roles` is None when the record has no "roles" key. */
  datatype Intent = Intent(action: string, serverId: string, roles: Option<seq<RoleId>>)

  datatype Entry = Entry(phrase: string, intent: Intent)

  type IntentTable = seq<Entry>

  function Phrases(t: IntentTable): (r: seq<string>)
    ensures |r| == |t| && forall i :: 0 <= i < |t| ==> r[i] == t[i].phrase
  {
    if t == [] then [] else [t[0].phrase] + Phrases(t[1..])
  }

  /** No phrase appears twice, as in a dictionary. */
  predicate Keyed(t: IntentTable)
  {
    forall i, j :: 0 <= i < j < |t| ==> t[i].phrase != t[j].phrase
  }

  /** `intents.get(phrase)`. */
  function Lookup(t: IntentTable, phrase: string): (r: Option<Intent>)
    ensures r.None? <==> phrase !in Phrases(t)
    ensures r.Some? ==> Entry(phrase, r.value) in t
  {
    if t == [] then None
    else if t[0].phrase == phrase then Some(t[0].intent)
    else Lookup(t[1..], phrase)
  }

  /** `intents[phrase] = intent`. */
  function Put(t: IntentTable, phrase: string, intent: Intent): (r: IntentTable)
    ensures |r| == if phrase in Phrases(t) then |t| else |t| + 1
  {
    if t == [] then [Entry(phrase, intent)]
    else if t[0].phrase == phrase then [Entry(phrase, intent)] + t[1..]
    else [t[0]] + Put(t[1..], phrase, intent)
  }

  /** `intents.pop(phrase, None)`. */
  function Delete(t: IntentTable, phrase: string): (r: IntentTable)
    ensures |r| <= |t|
  {
    if t == [] then []
    else (if t[0].phrase == phrase then [] else [t[0]]) + Delete(t[1..], phrase)
  }

  /** After `intents[phrase] = intent` the phrase reads back as the new record, and
      every other phrase reads as before. */
  lemma {:induction false} LookupPut(t: IntentTable, phrase: string, intent: Intent, other: string)
    ensures Lookup(Put(t, phrase, intent), other) == if other == phrase then Some(intent) else Lookup(t, other)
  {
    if t != [] && t[0].phrase != phrase {
      LookupPut(t[1..], phrase, intent, other);
    }
  }

  /** An assignment keeps the order of the phrases: an existing phrase stays where it
      was, a new one goes last. */
  lemma {:induction false} PutPhrases(t: IntentTable, phrase: string, intent: Intent)
    ensures Phrases(Put(t, phrase, intent)) == if phrase in Phrases(t) then Phrases(t) else Phrases(t) + [phrase]
  {
    if t != [] {
      var r := Put(t, phrase, intent);
      assert Phrases(t) == [t[0].phrase] + Phrases(t[1..]);
      if t[0].phrase == phrase {
        assert r[1..] == t[1..];
      } else {
        PutPhrases(t[1..], phrase, intent);
        assert r[1..] == Put(t[1..], phrase, intent);
      }
      assert Phrases(r) == [r[0].phrase] + Phrases(r[1..]);
    }
  }

  /** An assignment keeps the order of the phrases, and the table stays keyed. */
  lemma PutOrder(t: IntentTable, phrase: string, intent: Intent)
    requires Keyed(t)
    ensures Phrases(Put(t, phrase, intent)) == if phrase in Phrases(t) then Phrases(t) else Phrases(t) + [phrase]
    ensures Keyed(Put(t, phrase, intent))
  {
    PutPhrases(t, phrase, intent);
    var r, ps := Put(t, phrase, intent), Phrases(Put(t, phrase, intent));
    forall i, j | 0 <= i < j < |r| ensures r[i].phrase != r[j].phrase {
      assert r[i].phrase == ps[i] && r[j].phrase == ps[j];
      if j < |t| {
        assert ps[i] == Phrases(t)[i] && ps[j] == Phrases(t)[j];
      }
    }
  }

  /** After `intents.pop(phrase, None)` the phrase is gone and every other phrase reads
      as before. */
  lemma {:induction false} LookupDelete(t: IntentTable, phrase: string, other: string)
    ensures Lookup(Delete(t, phrase), other) == if other == phrase then None else Lookup(t, other)
  {
    if t != [] {
      LookupDelete(t[1..], phrase, other);
      var rest := Delete(t[1..], phrase);
      if t[0].phrase != phrase {
        assert Delete(t, phrase) == [t[0]] + rest;
        assert ([t[0]] + rest)[1..] == rest;
      } else {
        assert Delete(t, phrase) == rest;
      }
    }
  }

  /** Popping a phrase that is not there changes nothing. */
  lemma {:induction false} DeleteAbsent(t: IntentTable, phrase: string)
    requires phrase !in Phrases(t)
    ensures Delete(t, phrase) == t
  {
    if t != [] {
      assert Phrases(t) == [t[0].phrase] + Phrases(t[1..]);
      DeleteAbsent(t[1..], phrase);
    }
  }

  /** In a keyed table the first phrase does not occur again. */
  lemma HeadPhraseUnique(t: IntentTable)
    requires Keyed(t) && t != []
    ensures t[0].phrase !in Phrases(t[1..])
  {
    var ps := Phrases(t[1..]);
    forall i | 0 <= i < |ps| ensures ps[i] != t[0].phrase {
      assert ps[i] == t[i + 1].phrase;
    }
  }

  lemma KeyedTail(t: IntentTable)
    requires Keyed(t) && t != []
    ensures Keyed(t[1..])
  {
    forall i, j | 0 <= i < j < |t| - 1 ensures t[1..][i].phrase != t[1..][j].phrase {
      assert t[1..][i] == t[i + 1] && t[1..][j] == t[j + 1];
    }
  }

  /** Cutting entry `j` out of the tail and putting the head back cuts entry `j + 1`. */
  lemma CutShift(t: IntentTable, j: nat)
    requires j + 1 < |t|
    ensures [t[0]] + (t[1..][..j] + t[1..][j + 1..]) == t[..j + 1] + t[j + 2..]
  {
    assert [t[0]] + t[1..][..j] == t[..j + 1];
    assert t[1..][j + 1..] == t[j + 2..];
  }

  /** Popping the first entry's phrase cuts out just that entry. */
  lemma DeleteHead(t: IntentTable)
    requires Keyed(t) && t != []
    ensures Delete(t, t[0].phrase) == t[..0] + t[1..]
  {
    HeadPhraseUnique(t);
    DeleteAbsent(t[1..], t[0].phrase);
    assert Delete(t, t[0].phrase) == [] + Delete(t[1..], t[0].phrase);
  }

  /** Popping a later entry's phrase keeps the head in front. */
  lemma DeleteStep(t: IntentTable, phrase: string, j: nat)
    requires t != [] && t[0].phrase != phrase && j + 1 < |t|
    requires Delete(t[1..], phrase) == t[1..][..j] + t[1..][j + 1..]
    ensures Delete(t, phrase) == t[..j + 1] + t[j + 2..]
  {
    assert Delete(t, phrase) == [t[0]] + Delete(t[1..], phrase);
    CutShift(t, j);
  }

  /** Popping the phrase of entry `k` cuts out just that entry: the entries before it
      and after it stay, in their order. */
  lemma {:induction false} DeleteCutsEntry(t: IntentTable, phrase: string, k: nat)
    requires Keyed(t) && k < |t| && t[k].phrase == phrase
    ensures Delete(t, phrase) == t[..k] + t[k + 1..]
    decreases k
  {
    if k == 0 {
      DeleteHead(t);
    } else {
      KeyedTail(t);
      assert t[1..][k - 1] == t[k];
      DeleteCutsEntry(t[1..], phrase, k - 1);
      DeleteStep(t, phrase, k - 1);
    }
  }

  /** Popping keeps exactly the other entries, and the table stays keyed. */
  lemma {:induction false} DeleteKeepsOthers(t: IntentTable, phrase: string)
    requires Keyed(t)
    ensures forall e :: e in Delete(t, phrase) <==> e in t && e.phrase != phrase
    ensures Keyed(Delete(t, phrase))
  {
    if t != [] {
      DeleteKeepsOthers(t[1..], phrase);
    }
  }

  /** Popping keeps the other entries in their order, and the table stays keyed. */
  lemma DeleteKeepsOrder(t: IntentTable, phrase: string)
    requires Keyed(t)
    ensures forall e :: e in Delete(t, phrase) <==> e in t && e.phrase != phrase
    ensures Keyed(Delete(t, phrase))
    ensures phrase in Phrases(t) ==>
      exists k :: 0 <= k < |t| && t[k].phrase == phrase && Delete(t, phrase) == t[..k] + t[k + 1..]
  {
    DeleteKeepsOthers(t, phrase);
    if phrase in Phrases(t) {
      var k :| 0 <= k < |t| && Phrases(t)[k] == phrase;
      DeleteCutsEntry(t, phrase, k);
    }
  }

  /** The assistant's configuration store. */
  class ConfigManager {
    var intents: IntentTable
    var ptero: Option<string>
    var gpt: Option<string>

    ghost predicate Valid()
      reads this
    {
      Keyed(intents)
    }

    /** The registered defaults: no intents and both keys None. */
    constructor()
      ensures Valid() && intents == [] && ptero == None && gpt == None
    {
      intents := [];
      ptero := None;
      gpt := None;
    }

    /** `add_intent`. */
    method AddIntent(phrase: string, action: string, serverId: string, roles: seq<RoleId>)
      requires Valid()
      modifies this
      ensures Valid()
      ensures intents == Put(old(intents), phrase, Intent(action, serverId, Some(roles)))
      ensures ptero == old(ptero) && gpt == old(gpt)
    {
      PutOrder(intents, phrase, Intent(action, serverId, Some(roles)));
      intents := Put(intents, phrase, Intent(action, serverId, Some(roles)));
    }

    /** `remove_intent`. */
    method RemoveIntent(phrase: string)
      requires Valid()
      modifies this
      ensures Valid()
      ensures intents == Delete(old(intents), phrase)
      ensures ptero == old(ptero) && gpt == old(gpt)
    {
      DeleteKeepsOrder(intents, phrase);
      intents := Delete(intents, phrase);
    }

    /** `list_intents`. */
    method ListIntents() returns (r: IntentTable)
      ensures r == intents
    {
      r := intents;
    }

    /** `set_ptero_api_key`. */
    method SetPteroApiKey(key: string)
      modifies this
      ensures ptero == Some(key) && gpt == old(gpt) && intents == old(intents)
    {
      ptero := Some(key);
    }

    /** `get_ptero_api_key`: None until a key is set. */
    method GetPteroApiKey() returns (r: Option<string>)
      ensures r == ptero
    {
      r := ptero;
    }

    /** `set_gpt_api_key`. */
    method SetGptApiKey(key: string)
      modifies this
      ensures gpt == Some(key) && ptero == old(ptero) && intents == old(intents)
    {
      gpt := Some(key);
    }

    /** `get_gpt_api_key`: None until a key is set. */
    method GetGptApiKey() returns (r: Option<string>)
      ensures r == gpt
    {
      r := gpt;
    }
  }
}
