/** The settings endpoints (`settings.py`): API keys are shown masked, and a
    save merges only whitelisted, non-empty, unmasked values into the stored
    settings. The settings file is modelled as the map it holds; reading and
    writing it, and the configuration reload after a save, are not modelled. */
module SettingsApi {

  type Settings = map<string, string>

  const OpenAiApiKey: string := "openai_api_key"
  const OpenAiBaseUrl: string := "openai_base_url"
  const BailianApiKey: string := "bailian_api_key"

  /** `_ALLOWED_KEYS`, in the order the save loop is modelled to visit them. */
  const AllowedKeys: seq<string> := [OpenAiApiKey, OpenAiBaseUrl, BailianApiKey]

  function KeySet(keys: seq<string>): set<string>
  {
    set k | k in keys
  }

  predicate Allowed(key: string)
  {
    key in AllowedKeys
  }

  // ---------------------------------------------------------------------
  // Masking
  // ---------------------------------------------------------------------

  function Stars(n: nat): (r: string)
    ensures |r| == n && forall k :: 0 <= k < n ==> r[k] == '*'
  {
    seq(n, _ => '*')
  }

  /** `_mask`: short values become all stars; longer ones keep four characters at
      each end. */
  function Mask(value: string): (r: string)
    ensures |r| == |value|
    ensures |value| <= 8 ==> forall k :: 0 <= k < |r| ==> r[k] == '*'
    ensures |value| > 8 ==>
      r[..4] == value[..4] && r[|r| - 4..] == value[|value| - 4..]
      && forall k :: 4 <= k < |r| - 4 ==> r[k] == '*'
  {
    if |value| <= 8 then Stars(|value|)
    else value[..4] + Stars(|value| - 8) + value[|value| - 4..]
  }

  /** `settings.get(key, "")`. */
  function Lookup(stored: Settings, key: string): string
  {
    if key in stored then stored[key] else ""
  }

  /** `get_settings`: the two keys masked, the base URL as stored. */
  function View(stored: Settings): (v: Settings)
    ensures v.Keys == {OpenAiApiKey, OpenAiBaseUrl, BailianApiKey}
    ensures v[OpenAiApiKey] == Mask(Lookup(stored, OpenAiApiKey))
    ensures v[OpenAiBaseUrl] == Lookup(stored, OpenAiBaseUrl)
    ensures v[BailianApiKey] == Mask(Lookup(stored, BailianApiKey))
  {
    map[OpenAiApiKey := Mask(Lookup(stored, OpenAiApiKey)),
        OpenAiBaseUrl := Lookup(stored, OpenAiBaseUrl),
        BailianApiKey := Mask(Lookup(stored, BailianApiKey))]
  }

  // ---------------------------------------------------------------------
  // Saving
  // ---------------------------------------------------------------------

  /** The body carries a value for `key` that the save takes: present, non-empty,
      and without a mask star. */
  predicate Accepts(body: Settings, key: string)
  {
    key in body && body[key] != [] && '*' !in body[key]
  }

  /** The stored settings after the loop has visited the keys in `keys`. */
  function SavedOver(current: Settings, body: Settings, keys: set<string>): (r: Settings)
  {
    map k | k in current.Keys + (set j | j in keys && Accepts(body, j))
      :: if k in keys && Accepts(body, k) then body[k] else current[k]
  }

  /** What `save_settings` writes: every whitelisted key the body supplies acceptably
      overwritten, everything else kept. */
  function Saved(current: Settings, body: Settings): Settings
  {
    SavedOver(current, body, KeySet(AllowedKeys))
  }

  /** `save_settings`: the loop over the whitelist updating `current` in place. */
  method SaveSettings(current0: Settings, body: Settings) returns (current: Settings)
    ensures current == Saved(current0, body)
  {
    current := current0;
    var i := 0;
    while i < |AllowedKeys|
      invariant 0 <= i <= |AllowedKeys|
      invariant current == SavedOver(current0, body, KeySet(AllowedKeys[..i]))
    {
      var key := AllowedKeys[i];
      if key in body {
        var value := body[key];
        if value != [] && '*' !in value {
          current := current[key := value];
        }
      }
      VisitKey(current0, body, KeySet(AllowedKeys[..i]), key);
      assert AllowedKeys[..i + 1] == AllowedKeys[..i] + [key];
      assert KeySet(AllowedKeys[..i + 1]) == KeySet(AllowedKeys[..i]) + {key};
      i := i + 1;
    }
    assert AllowedKeys[..i] == AllowedKeys;
  }

  /** Visiting one more key updates at most that key. */
  lemma VisitKey(current: Settings, body: Settings, visited: set<string>, key: string)
    ensures var before := SavedOver(current, body, visited);
      SavedOver(current, body, visited + {key})
        == if Accepts(body, key) then before[key := body[key]] else before
  {
    var before := SavedOver(current, body, visited);
    var after := SavedOver(current, body, visited + {key});
    var expected := if Accepts(body, key) then before[key := body[key]] else before;
    forall k | k in after
      ensures k in expected && after[k] == expected[k]
    {
    }
    forall k | k in expected
      ensures k in after
    {
    }
    assert after.Keys == expected.Keys;
  }

  // ---------------------------------------------------------------------
  // Properties
  // ---------------------------------------------------------------------

  /** Every non-empty masked value shows a star, so it can never be saved back. */
  lemma MaskShowsStar(value: string)
    requires value != []
    ensures '*' in Mask(value)
  {
    var r := Mask(value);
    if |value| <= 8 {
      assert r[0] == '*';
    } else {
      assert r[4] == '*';
    }
  }

  /** A whitelisted key is stored with the body's value exactly when the body's
      value is acceptable; other keys, and whitelisted keys the body does not
      supply acceptably, keep their stored value or absence. */
  lemma SaveIff(current: Settings, body: Settings, key: string)
    ensures Allowed(key) && Accepts(body, key) ==>
      key in Saved(current, body) && Saved(current, body)[key] == body[key]
    ensures !(Allowed(key) && Accepts(body, key)) ==>
      (key in Saved(current, body) <==> key in current)
      && (key in current ==> Saved(current, body)[key] == current[key])
  {
  }

  /** A key outside the whitelist is never written, whatever the body says. */
  lemma IgnoresOtherKeys(current: Settings, body: Settings, key: string)
    requires !Allowed(key)
    ensures key in Saved(current, body) <==> key in current
    ensures key in current ==> Saved(current, body)[key] == current[key]
  {
    SaveIff(current, body, key);
  }

  /** Posting back exactly what the GET returned leaves the stored settings as they
      were. */
  lemma SaveViewUnchanged(stored: Settings)
    ensures Saved(stored, View(stored)) == stored
  {
    var v := View(stored);
    forall key | Allowed(key) && Accepts(v, key)
      ensures key in stored && stored[key] == v[key]
    {
      if key == OpenAiApiKey || key == BailianApiKey {
        MaskShowsStar(Lookup(stored, key));
        assert false;
      }
    }
    var saved := Saved(stored, v);
    forall key | key in saved.Keys
      ensures key in stored.Keys
    {
      SaveIff(stored, v, key);
    }
    forall key | key in stored.Keys
      ensures key in saved && saved[key] == stored[key]
    {
      SaveIff(stored, v, key);
    }
    assert saved.Keys == stored.Keys;
  }

  /** Saving the same body twice is saving it once. */
  lemma SaveIdempotent(current: Settings, body: Settings)
    ensures Saved(Saved(current, body), body) == Saved(current, body)
  {
    var once := Saved(current, body);
    var twice := Saved(once, body);
    forall key
      ensures (key in twice <==> key in once) && (key in once ==> twice[key] == once[key])
    {
      SaveIff(current, body, key);
      SaveIff(once, body, key);
    }
    assert twice.Keys == once.Keys;
  }
}
