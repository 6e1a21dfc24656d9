/** The security description of a route, and which descriptions may be registered at all. */
module Policy {
  import opened Wrappers
  import Authz
  import Limiter

  datatype AuthMode = Unset | Public | Session | SessionOrGuest | AdminOnly | Signature | OutOfRange(n: nat)

  datatype OwnerSource = OwnerSource(kind: string, param: string) {

    predicate IsZero() {
      kind == "" && param == ""
    }
  }

  datatype Policy = Policy(
    name: string,
    auth: AuthMode,
    permission: Option<Authz.Action>,
    ownership: OwnerSource,
    rules: seq<Limiter.Rule>,
    unlimited: bool,
    csrf: bool,
    idempotent: bool,
    rawBody: bool,
    reauth: bool,
    dualApproval: bool,
    timeout: int
  )

  datatype Fault =
    | NoName | AuthUnset | OwnershipIncomplete | BadRule(i: nat, error: Limiter.RuleError)
    | NoLimit | LimitAndUnlimited
    | RawBodyWithoutSignature | SignatureWithoutRawBody | SignatureWithCsrf | SignatureWithAuthorization
    | OwnershipWithoutActor | StaffControlOnPublic | NegativeTimeout

  /** What makes a policy faulty, fault by fault. */
  predicate Has(p: Policy, f: Fault) {
    match f
    case NoName => p.name == ""
    case AuthUnset => p.auth == Unset || p.auth.OutOfRange?
    case OwnershipIncomplete => (p.ownership.kind == "") != (p.ownership.param == "")
    case BadRule(i, error) => i < |p.rules| && Limiter.Validate(p.rules[i]) == Some(error)
    case NoLimit => p.rules == [] && !p.unlimited
    case LimitAndUnlimited => p.rules != [] && p.unlimited
    case RawBodyWithoutSignature => p.rawBody && p.auth != Signature
    case SignatureWithoutRawBody => p.auth == Signature && !p.rawBody
    case SignatureWithCsrf => p.auth == Signature && p.csrf
    case SignatureWithAuthorization => p.auth == Signature && (!p.ownership.IsZero() || p.permission.Some?)
    case OwnershipWithoutActor => !p.ownership.IsZero() && p.auth == Public
    case StaffControlOnPublic => (p.reauth || p.dualApproval) && p.auth != AdminOnly
    case NegativeTimeout => p.timeout < 0
  }

  ghost predicate Valid(p: Policy) {
    forall f :: !Has(p, f)
  }

  /** What a valid policy is, said positively. */
  lemma ValidIff(p: Policy)
    ensures Valid(p) <==>
      && p.name != "" && !p.auth.Unset? && !p.auth.OutOfRange? && p.timeout >= 0
      && (p.unlimited <==> |p.rules| == 0)
      && (forall i :: 0 <= i < |p.rules| ==>
            !p.rules[i].scope.OtherScope? && p.rules[i].limit >= 1 && p.rules[i].window >= 1)
      && (p.ownership == OwnerSource("", "") || (p.ownership.kind != "" && p.ownership.param != "" && p.auth != Public))
      && (p.rawBody <==> p.auth == Signature)
      && (p.auth == Signature ==> !p.csrf && p.permission.None? && p.ownership == OwnerSource("", ""))
      && (p.reauth || p.dualApproval ==> p.auth == AdminOnly)
  {
    if Valid(p) {
      ValidFields(p);
    } else {
      var f :| Has(p, f);
      if f.BadRule? {
        Limiter.ValidateIff(p.rules[f.i]);
      }
    }
  }

  lemma ValidFields(p: Policy)
    requires Valid(p)
    ensures p.name != "" && !p.auth.Unset? && !p.auth.OutOfRange? && p.timeout >= 0
    ensures p.unlimited <==> |p.rules| == 0
    ensures forall i :: 0 <= i < |p.rules| ==>
      !p.rules[i].scope.OtherScope? && p.rules[i].limit >= 1 && p.rules[i].window >= 1
    ensures p.ownership == OwnerSource("", "") ||
      (p.ownership.kind != "" && p.ownership.param != "" && p.auth != Public)
    ensures p.rawBody <==> p.auth == Signature
    ensures p.auth == Signature ==> !p.csrf && p.permission.None? && p.ownership == OwnerSource("", "")
    ensures p.reauth || p.dualApproval ==> p.auth == AdminOnly
  {
    assert !Has(p, NoName) && !Has(p, AuthUnset) && !Has(p, NegativeTimeout) && !Has(p, NoLimit);
    assert !Has(p, LimitAndUnlimited) && !Has(p, OwnershipIncomplete) && !Has(p, OwnershipWithoutActor);
    assert !Has(p, RawBodyWithoutSignature) && !Has(p, SignatureWithoutRawBody) && !Has(p, SignatureWithCsrf);
    assert !Has(p, SignatureWithAuthorization) && !Has(p, StaffControlOnPublic);
    forall i | 0 <= i < |p.rules|
      ensures !p.rules[i].scope.OtherScope? && p.rules[i].limit >= 1 && p.rules[i].window >= 1
    {
      Limiter.ValidateIff(p.rules[i]);
      assert Limiter.Validate(p.rules[i]).Some? ==> Has(p, BadRule(i, Limiter.Validate(p.rules[i]).value));
    }
  }

  method RuleFaults(p: Policy) returns (errs: seq<Fault>)
    ensures forall f :: f in errs <==> f.BadRule? && Has(p, f)
  {
    errs := [];
    for i := 0 to |p.rules|
      invariant forall f :: f in errs <==> f.BadRule? && f.i < i && Has(p, f)
    {
      var error := Limiter.Validate(p.rules[i]);
      if error.Some? {
        errs := errs + [BadRule(i, error.value)];
      }
    }
  }

  predicate IsField(f: Fault) {
    f.NoName? || f.AuthUnset? || f.OwnershipIncomplete? || f.BadRule?
  }

  predicate IsSignature(f: Fault) {
    f.RawBodyWithoutSignature? || f.SignatureWithoutRawBody? || f.SignatureWithCsrf? || f.SignatureWithAuthorization?
  }

  /** The faults of one field on its own. */
  method FieldFaults(p: Policy) returns (errs: seq<Fault>)
    ensures forall f :: f in errs <==> IsField(f) && Has(p, f)
  {
    errs := [];
    if p.name == "" {
      errs := errs + [NoName];
    }
    if p.auth == Unset || p.auth.OutOfRange? {
      errs := errs + [AuthUnset];
    }
    if !p.ownership.IsZero() {
      if p.ownership.kind == "" {
        errs := errs + [OwnershipIncomplete];
      } else if p.ownership.param == "" {
        errs := errs + [OwnershipIncomplete];
      }
    }
    var ruleErrs := RuleFaults(p);
    errs := errs + ruleErrs;
  }

  method SignatureFaults(p: Policy) returns (errs: seq<Fault>)
    ensures forall f :: f in errs <==> IsSignature(f) && Has(p, f)
  {
    errs := [];
    if p.rawBody && p.auth != Signature {
      errs := errs + [RawBodyWithoutSignature];
    }
    if p.auth == Signature {
      if !p.rawBody {
        errs := errs + [SignatureWithoutRawBody];
      }
      if p.csrf {
        errs := errs + [SignatureWithCsrf];
      }
      if !p.ownership.IsZero() || p.permission.Some? {
        errs := errs + [SignatureWithAuthorization];
      }
    }
  }

  /** Every fault is reported, and nothing else: the result is empty exactly for a valid policy. */
  method Validate(p: Policy) returns (errs: seq<Fault>)
    ensures forall f :: f in errs <==> Has(p, f)
    ensures errs == [] <==> Valid(p)
  {
    errs := FieldFaults(p);
    if p.rules == [] && !p.unlimited {
      errs := errs + [NoLimit];
    }
    if p.rules != [] && p.unlimited {
      errs := errs + [LimitAndUnlimited];
    }
    var signatureErrs := SignatureFaults(p);
    errs := errs + signatureErrs;
    if !p.ownership.IsZero() && p.auth == Public {
      errs := errs + [OwnershipWithoutActor];
    }
    if (p.reauth || p.dualApproval) && p.auth != AdminOnly {
      errs := errs + [StaffControlOnPublic];
    }
    if p.timeout < 0 {
      errs := errs + [NegativeTimeout];
    }
    assert errs != [] ==> errs[0] in errs;
  }
}
