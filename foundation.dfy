/** Values shared by every part of the portal: optional values, row ids, the reply of a
    handler that fails, and the two closed enumerations that several tables store
    (account roles and priorities). */
module Foundation {

  datatype Option<+T> = None | Some(value: T)

  /** Primary key of a row. The store generates these (gen_random_uuid), so every
      insert in this model receives a fresh id from its caller. */
  type Id = nat

  /** The JSON `message` of an error reply. `Invalid(field)` stands for the text the
      schema validator builds for the first field that fails its rule; `Unexpected`
      for a failure raised by the store (the shared error handler turns it into 500). */
  datatype Message = Text(text: string) | Invalid(field: string) | Unexpected

  /** An error reply: HTTP status plus message. */
  datatype Failure = Failure(status: nat, message: Message)

  /** Outcome of a handler: a success body or an error reply. */
  datatype Result<+T> = Ok(value: T) | Err(failure: Failure)

  function StoreError(): Failure { Failure(500, Unexpected) }

  /** Account roles. The users table stores them as text; every path that writes
      the column writes one of these four names. */
  datatype Role = Warga | Operator | Admin | SuperAdmin

  function RoleName(r: Role): string
  {
    match r
    case Warga => "warga"
    case Operator => "operator"
    case Admin => "admin"
    case SuperAdmin => "super_admin"
  }

  /** Membership test of a request value in the closed list of role names. */
  function ParseRole(s: string): (r: Option<Role>)
    ensures r.Some? ==> RoleName(r.value) == s
    ensures r.None? ==> forall x :: RoleName(x) != s
  {
    if s == "warga" then Some(Warga)
    else if s == "operator" then Some(Operator)
    else if s == "admin" then Some(Admin)
    else if s == "super_admin" then Some(SuperAdmin)
    else None
  }

  /** Priority of complaints and announcements. */
  datatype Priority = Low | Normal | High

  function PriorityName(p: Priority): string
  {
    match p
    case Low => "low"
    case Normal => "normal"
    case High => "high"
  }

  function ParsePriority(s: string): (r: Option<Priority>)
    ensures r.Some? ==> PriorityName(r.value) == s
    ensures r.None? ==> forall p :: PriorityName(p) != s
  {
    if s == "low" then Some(Low)
    else if s == "normal" then Some(Normal)
    else if s == "high" then Some(High)
    else None
  }

  /** A character outside the Basic Multilingual Plane, which UTF-16 writes as a
      surrogate pair. */
  predicate Astral(c: char)
  {
    c as int >= 0x1_0000
  }

  /** The length of a text in UTF-16 code units, the unit in which JavaScript
      strings, and so the validator's `.min` and `.max`, count. */
  function Utf16Length(s: string): (n: nat)
    ensures |s| <= n <= 2 * |s|
    ensures |s| == 1 ==> (n == 2 <==> Astral(s[0]))
  {
    if |s| == 0 then 0 else (if Astral(s[0]) then 2 else 1) + Utf16Length(s[1..])
  }

  /** The length of a concatenation is the sum of the lengths of its parts; with
      the one-character case this fixes the length of every text. */
  lemma {:induction false} Utf16LengthAppend(a: string, b: string)
    ensures Utf16Length(a + b) == Utf16Length(a) + Utf16Length(b)
    decreases |a|
  {
    if |a| > 0 {
      assert (a + b)[1..] == a[1..] + b;
      Utf16LengthAppend(a[1..], b);
    } else {
      assert a + b == b;
    }
  }

  /** A text made only of astral characters counts two units per character. */
  lemma {:induction false} Utf16LengthOfAstral(s: string)
    requires forall i :: 0 <= i < |s| ==> Astral(s[i])
    ensures Utf16Length(s) == 2 * |s|
  {
    if |s| > 0 {
      assert forall i :: 0 <= i < |s[1..]| ==> s[1..][i] == s[i + 1];
      Utf16LengthOfAstral(s[1..]);
    }
  }

  /** A text counts one unit per character exactly when it has no astral
      character. */
  lemma {:induction false} Utf16LengthOfPlain(s: string)
    ensures Utf16Length(s) == |s| <==> forall i :: 0 <= i < |s| ==> !Astral(s[i])
  {
    if |s| > 0 {
      Utf16LengthOfPlain(s[1..]);
      assert forall i :: 1 <= i < |s| ==> s[i] == s[1..][i - 1];
    }
  }

  /** A string field of a request-body schema (`Joi.string()` with `.min`, `.max` and
      `.required()` as declared): an absent value passes unless the field is
      required; a present value must be non-empty (the validator's default) and
      its length in UTF-16 units must lie within the declared bounds. */
  predicate TextOk(v: Option<string>, required: bool, min: nat, max: Option<nat>)
  {
    match v
    case None => !required
    case Some(s) => |s| > 0 && min <= Utf16Length(s) && (max.None? || Utf16Length(s) <= max.value)
  }

  /** One key of a request-body schema and whether the body satisfies its rule. */
  datatype Rule = Rule(field: string, ok: bool)

  /** The body satisfies every rule of the schema. */
  predicate Passes(rules: seq<Rule>)
  {
    forall i :: 0 <= i < |rules| ==> rules[i].ok
  }

  /** A schema that stops at its first failing key (the validator's default): the
      key, in the schema's declaration order, whose rule the body breaks first. */
  function FirstFailing(rules: seq<Rule>): (f: Option<string>)
    ensures f.None? <==> Passes(rules)
    ensures f.Some? ==> exists i :: 0 <= i < |rules| && rules[i] == Rule(f.value, false) &&
                          forall j :: 0 <= j < i ==> rules[j].ok
  {
    if |rules| == 0 then None
    else if !rules[0].ok then Some(rules[0].field)
    else
      var f := FirstFailing(rules[1..]);
      assert forall i :: 1 <= i < |rules| ==> rules[i] == rules[1..][i - 1];
      f
  }

  /** The 400 reply of a schema that stops at its first failing field. */
  function FieldError(field: string): Failure { Failure(400, Invalid(field)) }

  /** The reply of a schema check: nothing when the body passes, otherwise 400
      naming the first failing key. */
  function Validate(rules: seq<Rule>): (e: Option<Failure>)
    ensures e.None? <==> Passes(rules)
    ensures e.Some? ==> e.value.status == 400 && e.value.message.Invalid? &&
                          exists i :: 0 <= i < |rules| && rules[i] == Rule(e.value.message.field, false)
  {
    match FirstFailing(rules)
    case None => None
    case Some(field) => Some(FieldError(field))
  }
}
