/** Which settings are accepted, and the removal of stored keys from them. */
module SettingsSchema {
  import opened Wrappers
  import opened Json

  predicate Optional(fields: map<string, Value>, key: string, check: Value -> bool) {
    key in fields ==> check(fields[key])
  }

  predicate IsOpacity(v: Value) {
    (v.Float? && 0 <= v.numerator <= v.denominator) || (v.Integer? && 0 <= v.n <= 1)
  }

  predicate IsPathOrNull(v: Value) {
    v.Null? || v.String?
  }

  predicate IsPosition(v: Value) {
    v.String? && (v.s == "bottom-right" || v.s == "bottom-left" || v.s == "top-right" || v.s == "top-left")
  }

  predicate IsNotifications(v: Value) {
    && v.Object?
    && Optional(v.fields, "position", IsPosition)
    && Optional(v.fields, "doNotDisturb", (b: Value) => b.Bool?)
    && Optional(v.fields, "playSound", (b: Value) => b.Bool?)
  }

  /** `ensure_object_settings` and `validate_settings_schema`. */
  predicate ValidSchema(v: Value) {
    && v.Object?
    && Optional(v.fields, "theme", (t: Value) => t.String?)
    && Optional(v.fields, "windowOpacity", IsOpacity)
    && Optional(v.fields, "enableVibrancy", (b: Value) => b.Bool?)
    && Optional(v.fields, "sidebarWidth", (w: Value) => w.Integer? && 160 <= w.n <= 640)
    && Optional(v.fields, "dataPath", IsPathOrNull)
    && Optional(v.fields, "logPath", IsPathOrNull)
    && Optional(v.fields, "ai", (a: Value) => a.Object?)
    && Optional(v.fields, "editor", (e: Value) => e.Object?)
    && Optional(v.fields, "notifications", IsNotifications)
  }

  /** Whether there is an object at `ai.keys`, whose entries are the stored keys. */
  predicate HasKeys(v: Value) {
    && v.Object? && "ai" in v.fields && v.fields["ai"].Object?
    && "keys" in v.fields["ai"].fields && v.fields["ai"].fields["keys"].Object?
  }

  function KeysOf(v: Value): map<string, Value>
    requires HasKeys(v)
  {
    v.fields["ai"].fields["keys"].fields
  }

  /** The settings without the keys of these providers. */
  function Scrubbed(v: Value, providers: set<string>): Value {
    if !HasKeys(v) then v
    else
      var ai := v.fields["ai"].fields["keys" := Object(KeysOf(v) - providers)];
      Object(v.fields["ai" := Object(ai)])
  }

  predicate ScrubChanges(v: Value, providers: set<string>) {
    HasKeys(v) && KeysOf(v).Keys * providers != {}
  }

  /** Scrubbing keeps settings acceptable. */
  lemma ScrubKeepsSchema(v: Value, providers: set<string>)
    requires ValidSchema(v)
    ensures ValidSchema(Scrubbed(v, providers))
  {
    hide IsNotifications, IsOpacity, IsPathOrNull;
  }

  /** Scrubbing nests nothing deeper. */
  lemma ScrubKeepsDepth(v: Value, providers: set<string>, depth: nat)
    requires Within(v, depth)
    ensures Within(Scrubbed(v, providers), depth)
  {
    if HasKeys(v) {
      assert Within(v.fields["ai"].fields["keys"], depth - 2);
      assert Within(Object(KeysOf(v) - providers), depth - 2);
    }
  }

  /** Scrubbing removes the keys of the providers and nothing else. */
  lemma ScrubsExactly(v: Value, providers: set<string>, provider: string)
    ensures provider in providers ==> At(Scrubbed(v, providers), ["ai", "keys", provider]) == None
    ensures provider !in providers
            ==> At(Scrubbed(v, providers), ["ai", "keys", provider]) == At(v, ["ai", "keys", provider])
    ensures ScrubChanges(v, providers) <==> Scrubbed(v, providers) != v
  {
    KeyAt(v, provider);
    KeyAt(Scrubbed(v, providers), provider);
    if HasKeys(v) {
      if ScrubChanges(v, providers) {
        var p :| p in KeysOf(v).Keys * providers;
        assert p !in KeysOf(Scrubbed(v, providers));
      } else {
        assert forall p :: p in KeysOf(v) && p in providers ==> p in KeysOf(v).Keys * providers;
        assert KeysOf(v) - providers == KeysOf(v);
        assert v.fields["ai"].fields["keys" := Object(KeysOf(v) - providers)] == v.fields["ai"].fields;
      }
    }
  }

  lemma KeyAt(v: Value, provider: string)
    ensures At(v, ["ai", "keys", provider])
         == if HasKeys(v) && provider in KeysOf(v) then Some(KeysOf(v)[provider]) else None
  {
    hide At;
    assert ["ai", "keys", provider] == ["ai"] + ["keys", provider] && ["keys", provider] == ["keys"] + [provider];
    assert [provider] == [provider] + [];
    AtStep(v, "ai", ["keys", provider]);
    if v.Object? && "ai" in v.fields {
      var ai := v.fields["ai"];
      AtStep(ai, "keys", [provider]);
      if ai.Object? && "keys" in ai.fields {
        var keys := ai.fields["keys"];
        AtStep(keys, provider, []);
        if keys.Object? && provider in keys.fields { AtSelf(keys.fields[provider]); }
      }
    }
  }

  lemma AtSelf(v: Value)
    ensures At(v, []) == Some(v)
  {
  }

  // ----- Field by field -----

  /** A value this field may have: the ranges include their ends, and any value is good for an unknown field. */
  predicate IsAccepted(key: string, x: Value) {
    if key == "theme" then x.String?
    else if key == "windowOpacity" then
      (x.Integer? && (x.n == 0 || x.n == 1)) || (x.Float? && x.numerator >= 0 && x.denominator >= x.numerator)
    else if key == "enableVibrancy" then x.Bool?
    else if key == "sidebarWidth" then x.Integer? && x.n >= 160 && x.n <= 640
    else if key == "dataPath" || key == "logPath" then x == Null || x.String?
    else if key == "ai" || key == "editor" then x.Object?
    else if key == "notifications" then
      x.Object? && forall k :: k in x.fields ==> IsAcceptedNotification(k, x.fields[k])
    else true
  }

  predicate IsAcceptedNotification(key: string, x: Value) {
    if key == "position" then
      x in [String("bottom-right"), String("bottom-left"), String("top-right"), String("top-left")]
    else if key == "doNotDisturb" || key == "playSound" then x.Bool?
    else true
  }

  lemma NotificationsFieldByField(v: Value)
    ensures IsNotifications(v) <==> v.Object? && forall k :: k in v.fields ==> IsAcceptedNotification(k, v.fields[k])
  {
    if v.Object? && forall k :: k in v.fields ==> IsAcceptedNotification(k, v.fields[k]) {
      assert "position" in v.fields ==> IsAcceptedNotification("position", v.fields["position"]);
      assert "doNotDisturb" in v.fields ==> IsAcceptedNotification("doNotDisturb", v.fields["doNotDisturb"]);
      assert "playSound" in v.fields ==> IsAcceptedNotification("playSound", v.fields["playSound"]);
    }
  }

  /** Settings are accepted exactly if they are an object and every field, taken alone, has an accepted value. */
  lemma FieldsAreCheckedAlone(v: Value)
    ensures ValidSchema(v) <==> v.Object? && forall k :: k in v.fields ==> IsAccepted(k, v.fields[k])
  {
    if v.Object? {
      if "notifications" in v.fields { NotificationsFieldByField(v.fields["notifications"]); }
      hide IsNotifications, IsAcceptedNotification;
    }
  }
}
