/** Audit helpers: masking a secret for display, and the payload of a
    structured audit log line. */
module AuditUtils {
  import opened Common

  /** `'*' * n`: no stars for a count of zero or less. */
  function Stars(n: int): (r: string)
    ensures |r| == if n > 0 then n else 0
    ensures forall i :: 0 <= i < |r| ==> r[i] == '*'
    decreases n
  {
    if n <= 0 then "" else Stars(n - 1) + "*"
  }

  /** Python's `s[start:]`: a negative start counts from the end, and either
      kind of start is clipped to the string. */
  function PySliceFrom(s: string, start: int): (r: string)
    ensures -|s| <= start < 0 ==> r == s[|s| + start..]
    ensures start < -|s| ==> r == s
    ensures start >= |s| ==> r == ""
    ensures 0 <= start <= |s| ==> r == s[start..]
  {
    if start < 0 then (if -start >= |s| then s else s[|s| + start..])
    else if start >= |s| then ""
    else s[start..]
  }

  /** The masking as the code writes it, for any `keep`: the masked form keeps
      the secret's length for a positive `keep`, and is longer than the secret
      for a `keep` of zero or less. */
  function MaskSecretAsWritten(value: string, keep: int): (r: string)
    ensures keep > 0 || value == "" ==> |r| == |value|
    ensures keep <= 0 && value != "" ==> |r| > |value|
  {
    if value == "" then ""
    else if |value| <= keep then Stars(|value|)
    else Stars(|value| - keep) + PySliceFrom(value, -keep)
  }

  /** With `keep = 0` the tail slice `s[-0:]` is the whole string: the masked
      form is twice as long and ends with the secret in full. */
  lemma ZeroKeepRevealsSecret()
    ensures MaskSecretAsWritten("abcd", 0) == "****abcd"
  {
    assert Stars(4) == "****";
  }

  /** The same happens for every non-empty secret. */
  lemma {:induction false} ZeroKeepRevealsEverySecret(value: string)
    requires value != ""
    ensures var r := MaskSecretAsWritten(value, 0);
      |r| == 2 * |value| && r[|value|..] == value
  {
  }

  /** The masking as intended: the result has the secret's length, every
      character is a star except the last `keep` ones, which are shown, and a
      `keep` of zero or less hides everything. */
  function MaskSecret(value: string, keep: int): (r: string)
    ensures |r| == |value|
    ensures var shown := if keep <= 0 then 0 else if keep < |value| then keep else 0;
      && (forall i :: 0 <= i < |value| - shown ==> r[i] == '*')
      && r[|value| - shown..] == value[|value| - shown..]
    ensures keep <= 0 || |value| <= keep ==> r == Stars(|value|)
  {
    var shown := if keep <= 0 then 0 else keep;
    if value == "" then ""
    else if |value| <= shown then Stars(|value|)
    else Stars(|value| - shown) + value[|value| - shown..]
  }

  /** For a positive `keep`, the code as written already masks as intended. */
  lemma MaskAgreesForPositiveKeep(value: string, keep: int)
    requires keep >= 1
    ensures MaskSecret(value, keep) == MaskSecretAsWritten(value, keep)
  {
  }

  /** Masking an already masked value changes nothing. */
  lemma MaskIdempotent(value: string, keep: int)
    ensures MaskSecret(MaskSecret(value, keep), keep) == MaskSecret(value, keep)
  {
    var once := MaskSecret(value, keep);
    var twice := MaskSecret(once, keep);
    if 0 < keep < |value| {
      assert once[|value| - keep..] == value[|value| - keep..];
      assert twice[|value| - keep..] == once[|value| - keep..];
      assert twice[..|value| - keep] == once[..|value| - keep] by {
        forall i | 0 <= i < |value| - keep
          ensures twice[i] == once[i]
        {
        }
      }
      assert twice == twice[..|value| - keep] + twice[|value| - keep..];
      assert once == once[..|value| - keep] + once[|value| - keep..];
    } else {
      assert once == Stars(|value|);
      assert twice == Stars(|value|);
    }
  }

  /** `mask_secret`'s default number of characters shown. */
  const DefaultKeep := 4

  // ---------------------------------------------------------------------------
  // Structured log payloads
  // ---------------------------------------------------------------------------

  datatype LogValue = Null | Text(s: string) | Number(n: int) | Flag(b: bool)

  /** The acting user, when there is one; `username` is absent on objects
      without that attribute. */
  datatype Actor = Actor(username: Option<string>)

  /** The keys the function's own parameters occupy; keyword arguments can
      never use them. */
  predicate Reserved(key: string) {
    key == "module" || key == "action" || key == "actor"
  }

  /** The payload logged: module, action and the actor's username (or null), with
      the extra keyword arguments added alongside. */
  function StructuredPayload(moduleName: string, action: string, actor: Option<Actor>, extra: map<string, LogValue>): (payload: map<string, LogValue>)
    requires forall k :: k in extra ==> !Reserved(k)
    ensures payload.Keys == {"module", "action", "actor"} + extra.Keys
    ensures payload["module"] == Text(moduleName) && payload["action"] == Text(action)
    ensures payload["actor"] == if actor.Some? && actor.value.username.Some? then Text(actor.value.username.value) else Null
    ensures forall k :: k in extra ==> payload[k] == extra[k]
  {
    var base := map[
      "module" := Text(moduleName),
      "action" := Text(action),
      "actor" := if actor.Some? && actor.value.username.Some? then Text(actor.value.username.value) else Null];
    assert Reserved("module") && Reserved("action") && Reserved("actor");
    base + extra
  }

  /** A payload with a masked field carries only the stars and the shown tail of
      the secret under that key. */
  lemma MaskedFieldInPayload(moduleName: string, action: string, actor: Option<Actor>, key: string, secret: string)
    requires !Reserved(key)
    ensures var payload := StructuredPayload(moduleName, action, actor, map[key := Text(MaskSecret(secret, DefaultKeep))]);
      && key in payload && payload[key].Text?
      && |payload[key].s| == |secret|
      && (|secret| <= DefaultKeep ==> payload[key].s == Stars(|secret|))
  {
  }
}
