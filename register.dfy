/**
 * The owner sign-up wizard (`Register`): the slug generated from the shop name, the
 * three step validators, the step state machine and the decisions of the final submit,
 * whose store calls appear as their results.
 */
module Register {
  import opened Wrappers
  import opened Domain

  // ---------------------------------------------------------------------------
  // Slug generation: name.toLowerCase().replace(/[^a-z0-9]+/g, '-').replace(/(^-|-$)/g, '')
  // ---------------------------------------------------------------------------

  predicate IsSlugChar(c: char) { 'a' <= c <= 'z' || '0' <= c <= '9' }

  /** A character the pattern `^[a-z0-9-]+$` accepts. */
  predicate IsPatternChar(c: char) { IsSlugChar(c) || c == '-' }

  function LowerChar(c: char): char
  {
    if 'A' <= c <= 'Z' then (c as int - 'A' as int + 'a' as int) as char else c
  }

  /** toLowerCase on ASCII letters; every other character is left as it is. */
  function Lower(s: string): (r: string)
    ensures |r| == |s|
    ensures forall i :: 0 <= i < |s| ==> r[i] == LowerChar(s[i])
  {
    if s == [] then [] else [LowerChar(s[0])] + Lower(s[1..])
  }

  /** The rest of `s` after its leading run of characters outside `[a-z0-9]`. */
  function DropRun(s: string): (r: string)
    ensures |r| <= |s| && r == s[|s| - |r|..]
    ensures forall i :: 0 <= i < |s| - |r| ==> !IsSlugChar(s[i])
    ensures r == [] || IsSlugChar(r[0])
  {
    if s == [] || IsSlugChar(s[0]) then s else DropRun(s[1..])
  }

  /** `replace(/[^a-z0-9]+/g, '-')`: each maximal run of other characters becomes one `-`. */
  function Collapse(s: string): (r: string)
    ensures s == [] <==> r == []
    ensures s != [] ==> r[0] == if IsSlugChar(s[0]) then s[0] else '-'
    decreases |s|
  {
    if s == [] then []
    else if IsSlugChar(s[0]) then [s[0]] + Collapse(s[1..])
    else "-" + Collapse(DropRun(s[1..]))
  }

  /** `replace(/(^-|-$)/g, '')`: one leading and one trailing `-` removed. */
  function Trim(t: string): string
  {
    var u := if |t| > 0 && t[0] == '-' then t[1..] else t;
    if |u| > 0 && u[|u| - 1] == '-' then u[..|u| - 1] else u
  }

  function Slugify(name: string): string
  {
    Trim(Collapse(Lower(name)))
  }

  /** Only `[a-z0-9-]`, and no two `-` in a row. */
  predicate SlugShaped(t: string)
  {
    (forall i :: 0 <= i < |t| ==> IsPatternChar(t[i])) &&
    (forall i :: 0 <= i < |t| - 1 ==> t[i] == '-' ==> t[i + 1] != '-')
  }

  /** A slug the generator can produce: shaped, and neither starting nor ending with `-`. */
  predicate IsCleanSlug(t: string)
  {
    SlugShaped(t) && (t != [] ==> t[0] != '-' && t[|t| - 1] != '-')
  }

  lemma {:induction false} CollapseShaped(s: string)
    ensures SlugShaped(Collapse(s))
    decreases |s|
  {
    if s != [] {
      if IsSlugChar(s[0]) {
        CollapseShaped(s[1..]);
      } else {
        CollapseShaped(DropRun(s[1..]));
      }
    }
  }

  lemma ShapedDropFirst(t: string)
    requires SlugShaped(t) && t != []
    ensures SlugShaped(t[1..])
  {
  }

  lemma ShapedDropLast(t: string)
    requires SlugShaped(t) && t != []
    ensures SlugShaped(t[..|t| - 1])
  {
  }

  /** Trimming a shaped string leaves a clean slug. */
  lemma TrimIsClean(t: string)
    requires SlugShaped(t)
    ensures IsCleanSlug(Trim(t))
  {
    var u := if |t| > 0 && t[0] == '-' then t[1..] else t;
    if |t| > 0 && t[0] == '-' {
      ShapedDropFirst(t);
      if |t| > 1 {
        assert t[1] != '-';
      }
    }
    assert SlugShaped(u) && (u != [] ==> u[0] != '-');
    if |u| > 0 && u[|u| - 1] == '-' {
      assert |u| > 1;
      ShapedDropLast(u);
      assert u[|u| - 2] != '-';
      assert Trim(t) == u[..|u| - 1];
    }
  }

  /** The generated slug contains only `[a-z0-9-]`, no `--`, and no `-` at either end. */
  lemma SlugifyIsClean(name: string)
    ensures IsCleanSlug(Slugify(name))
  {
    CollapseShaped(Lower(name));
    TrimIsClean(Collapse(Lower(name)));
  }

  /** The letters and digits of `s`, in order. */
  function LettersAndDigits(s: string): string
  {
    if s == [] then [] else (if IsSlugChar(s[0]) then [s[0]] else []) + LettersAndDigits(s[1..])
  }

  lemma {:induction false} LettersAndDigitsAppend(a: string, b: string)
    ensures LettersAndDigits(a + b) == LettersAndDigits(a) + LettersAndDigits(b)
  {
    if a == [] {
      assert a + b == b;
    } else {
      var h := if IsSlugChar(a[0]) then [a[0]] else [];
      assert (a + b)[0] == a[0];
      assert (a + b)[1..] == a[1..] + b;
      assert LettersAndDigits(a + b) == h + LettersAndDigits(a[1..] + b);
      LettersAndDigitsAppend(a[1..], b);
      assert h + (LettersAndDigits(a[1..]) + LettersAndDigits(b)) == (h + LettersAndDigits(a[1..])) + LettersAndDigits(b);
    }
  }

  lemma {:induction false} DropRunKeepsLetters(s: string)
    ensures LettersAndDigits(DropRun(s)) == LettersAndDigits(s)
  {
    if s != [] && !IsSlugChar(s[0]) {
      DropRunKeepsLetters(s[1..]);
    }
  }

  lemma {:induction false} CollapseKeepsLetters(s: string)
    ensures LettersAndDigits(Collapse(s)) == LettersAndDigits(s)
    decreases |s|
  {
    if s != [] {
      if IsSlugChar(s[0]) {
        CollapseKeepsLetters(s[1..]);
        LettersAndDigitsAppend([s[0]], Collapse(s[1..]));
      } else {
        CollapseKeepsLetters(DropRun(s[1..]));
        DropRunKeepsLetters(s[1..]);
        LettersAndDigitsAppend("-", Collapse(DropRun(s[1..])));
      }
    }
  }

  lemma TrimKeepsLetters(t: string)
    ensures LettersAndDigits(Trim(t)) == LettersAndDigits(t)
  {
    var u := if |t| > 0 && t[0] == '-' then t[1..] else t;
    if |t| > 0 && t[0] == '-' {
      assert t == "-" + u;
      LettersAndDigitsAppend("-", u);
    }
    assert LettersAndDigits(u) == LettersAndDigits(t);
    if |u| > 0 && u[|u| - 1] == '-' {
      assert u == u[..|u| - 1] + "-";
      LettersAndDigitsAppend(u[..|u| - 1], "-");
    }
  }

  /** Only separators are dropped: the slug keeps every letter and digit of the lowercased name, in order. */
  lemma SlugifyKeepsLetters(name: string)
    ensures LettersAndDigits(Slugify(name)) == LettersAndDigits(Lower(name))
  {
    CollapseKeepsLetters(Lower(name));
    TrimKeepsLetters(Collapse(Lower(name)));
  }

  lemma {:induction false} CollapseFixesShaped(t: string)
    requires SlugShaped(t)
    ensures Collapse(t) == t
  {
    if t != [] {
      assert SlugShaped(t[1..]);
      if !IsSlugChar(t[0]) {
        assert DropRun(t[1..]) == t[1..];
      }
      CollapseFixesShaped(t[1..]);
    }
  }

  /** A clean slug is its own slug. */
  lemma CleanSlugIsFixed(t: string)
    requires IsCleanSlug(t)
    ensures Slugify(t) == t
  {
    assert Lower(t) == t;
    CollapseFixesShaped(t);
  }

  /** Generating the slug of a generated slug changes nothing. */
  lemma SlugifyIdempotent(name: string)
    ensures Slugify(Slugify(name)) == Slugify(name)
  {
    SlugifyIsClean(name);
    CleanSlugIsFixed(Slugify(name));
  }

  // ---------------------------------------------------------------------------
  // Validators: the first failing check of each zod schema, in field order
  // ---------------------------------------------------------------------------

  /** `/^[a-z0-9-]+$/`. */
  predicate MatchesSlugPattern(s: string)
  {
    |s| > 0 && forall i :: 0 <= i < |s| ==> IsPatternChar(s[i])
  }

  /** `step1Schema`; whether the address passes `z.string().email()` is the parameter `emailOk`. */
  function Step1Error(name: string, email: string, password: string, emailOk: bool): (r: Option<string>)
    ensures r.None? <==> |name| >= 3 && emailOk && |password| >= 6
    ensures |name| < 3 ==> r == Some("Nome deve ter pelo menos 3 caracteres")
    ensures |name| >= 3 && !emailOk ==> r == Some("Email inválido")
    ensures |name| >= 3 && emailOk && |password| < 6 ==> r == Some("Senha deve ter pelo menos 6 caracteres")
  {
    if |name| < 3 then Some("Nome deve ter pelo menos 3 caracteres")
    else if !emailOk then Some("Email inválido")
    else if |password| < 6 then Some("Senha deve ter pelo menos 6 caracteres")
    else None
  }

  /** `step2Schema`; the address is optional and every string passes. */
  function Step2Error(barbershopName: string, slug: string): (r: Option<string>)
    ensures r.None? <==> |barbershopName| >= 3 && |slug| >= 3 && MatchesSlugPattern(slug)
    ensures |barbershopName| < 3 ==> r == Some("Nome da barbearia é obrigatório")
    ensures |barbershopName| >= 3 && |slug| < 3 ==> r == Some("URL única é obrigatória")
    ensures |barbershopName| >= 3 && |slug| >= 3 && !MatchesSlugPattern(slug) ==>
      r == Some("Use apenas letras minúsculas, números e hífens")
  {
    if |barbershopName| < 3 then Some("Nome da barbearia é obrigatório")
    else if |slug| < 3 then Some("URL única é obrigatória")
    else if !MatchesSlugPattern(slug) then Some("Use apenas letras minúsculas, números e hífens")
    else None
  }

  /** `step3Schema`: the price is checked only for being non-empty. */
  function Step3Error(serviceName: string, servicePrice: string): (r: Option<string>)
    ensures r.None? <==> |serviceName| >= 2 && |servicePrice| >= 1
    ensures |serviceName| < 2 ==> r == Some("Nome do serviço é obrigatório")
    ensures |serviceName| >= 2 && |servicePrice| < 1 ==> r == Some("Preço é obrigatório")
  {
    if |serviceName| < 2 then Some("Nome do serviço é obrigatório")
    else if |servicePrice| < 1 then Some("Preço é obrigatório")
    else None
  }

  /** A generated slug always satisfies the pattern, so step 2 then only checks the two lengths. */
  lemma GeneratedSlugPassesPattern(barbershopName: string, name: string)
    ensures Step2Error(barbershopName, Slugify(name)).None? <==>
      |barbershopName| >= 3 && |Slugify(name)| >= 3
  {
    SlugifyIsClean(name);
  }

  // ---------------------------------------------------------------------------
  // The wizard
  // ---------------------------------------------------------------------------

  datatype FormData = FormData(
    name: string, email: string, password: string,
    barbershopName: string, slug: string, address: string,
    serviceName: string, servicePrice: string)

  const InitialForm: FormData := FormData("", "", "", "", "", "", "Corte de Cabelo", "35.00")

  /** The inputs edited directly; the shop name goes through `OnBarbershopNameChange`. */
  datatype Field = NameField | EmailField | PasswordField | SlugField | AddressField | ServiceNameField | ServicePriceField

  function WithField(f: FormData, field: Field, value: string): FormData
  {
    match field
    case NameField => f.(name := value)
    case EmailField => f.(email := value)
    case PasswordField => f.(password := value)
    case SlugField => f.(slug := value)
    case AddressField => f.(address := value)
    case ServiceNameField => f.(serviceName := value)
    case ServicePriceField => f.(servicePrice := value)
  }

  /** What `handleNext` checks: step 1 and step 2 have a schema, any other step none. */
  function StepError(step: int, f: FormData, emailOk: bool): (r: Option<string>)
    ensures step == 1 ==> r == Step1Error(f.name, f.email, f.password, emailOk)
    ensures step == 2 ==> r == Step2Error(f.barbershopName, f.slug)
    ensures step != 1 && step != 2 ==> r.None?
  {
    if step == 1 then Step1Error(f.name, f.email, f.password, emailOk)
    else if step == 2 then Step2Error(f.barbershopName, f.slug)
    else None
  }

  /** "Próximo" is shown below step 3, "Voltar" above step 1. */
  predicate NextOffered(step: int) { step < 3 }
  predicate BackOffered(step: int) { step > 1 }

  class RegisterWizard {
    var step: int
    var form: FormData

    constructor()
      ensures step == 1 && form == InitialForm
    {
      step := 1;
      form := InitialForm;
    }

    /** Advances by exactly one step when the current step's schema passes; otherwise reports its first issue. */
    method HandleNext(emailOk: bool) returns (error: Option<string>)
      modifies this
      ensures error == StepError(old(step), old(form), emailOk)
      ensures step == if error.None? then old(step) + 1 else old(step)
      ensures form == old(form)
      ensures 1 <= old(step) && NextOffered(old(step)) ==> 1 <= step <= 3
    {
      error := StepError(step, form, emailOk);
      if error.None? {
        step := step + 1;
      }
    }

    method HandleBack()
      modifies this
      ensures step == old(step) - 1 && form == old(form)
      ensures old(step) <= 3 && BackOffered(old(step)) ==> 1 <= step <= 3
    {
      step := step - 1;
    }

    /** Typing the shop name regenerates the slug; a slug typed by hand is kept until then. */
    method OnBarbershopNameChange(name: string)
      modifies this
      ensures form == old(form).(barbershopName := name, slug := Slugify(name))
      ensures IsCleanSlug(form.slug)
      ensures step == old(step)
    {
      SlugifyIsClean(name);
      form := form.(barbershopName := name, slug := Slugify(name));
    }

    method OnFieldChange(field: Field, value: string)
      modifies this
      ensures form == WithField(old(form), field, value) && step == old(step)
    {
      form := WithField(form, field, value);
    }
  }

  // ---------------------------------------------------------------------------
  // Submit
  // ---------------------------------------------------------------------------

  predicate OccursAt(s: string, sub: string, i: int)
  {
    0 <= i <= |s| - |sub| && s[i..i + |sub|] == sub
  }

  /** `s.includes(sub)`. */
  predicate Contains(s: string, sub: string)
  {
    exists i :: 0 <= i <= |s| - |sub| && OccursAt(s, sub, i)
  }

  /** The source tests both phrases; the second contains the first. */
  lemma LongPhraseContainsShort(m: string)
    requires Contains(m, "User already registered")
    ensures Contains(m, "already registered")
  {
    var long := "User already registered";
    var i :| 0 <= i <= |m| - |long| && OccursAt(m, long, i);
    assert long[5..] == "already registered";
    SuffixOccurs(m, long, i, 5);
  }

  /** Where a string occurs, so does each of its suffixes. */
  lemma SuffixOccurs(s: string, sub: string, i: int, k: int)
    requires OccursAt(s, sub, i) && 0 <= k <= |sub|
    ensures OccursAt(s, sub[k..], i + k)
  {
    assert s[i + k..i + |sub|] == s[i..i + |sub|][k..];
  }

  predicate AlreadyRegistered(message: string)
  {
    Contains(message, "already registered") || Contains(message, "User already registered")
  }

  /** Both phrases contain a `y`, so a message without one is never taken for "already registered". */
  lemma NoYNotRegistered(message: string)
    requires forall k :: 0 <= k < |message| ==> message[k] != 'y'
    ensures !AlreadyRegistered(message)
  {
    forall i | 0 <= i <= |message| - 18 && OccursAt(message, "already registered", i) ensures false {
      CharOfOccurrence(message, "already registered", i, 6);
    }
    forall i | 0 <= i <= |message| - 23 && OccursAt(message, "User already registered", i) ensures false {
      CharOfOccurrence(message, "User already registered", i, 11);
    }
  }

  lemma CharOfOccurrence(s: string, sub: string, i: int, k: int)
    requires OccursAt(s, sub, i) && 0 <= k < |sub|
    ensures s[i + k] == sub[k]
  {
    assert s[i..i + |sub|][k] == sub[k];
  }

  const DefaultError: string := "Ocorreu um erro ao cadastrar."
  const UrlTaken: string := "Esta URL já está em uso. Escolha outra."
  const NoUserError: string := "Erro ao criar usuário"
  const UniqueViolation: string := "23505"

  datatype SignUpResult = SignUpFailed(message: string) | SignUpNoUser | SignedUp(userId: string)
  datatype EstablishmentInsert = EstablishmentCreated(id: string) | EstablishmentFailed(code: string, message: string)

  /** The inserts sent, in order, whether or not the database accepts them. */
  datatype Write =
    | InsertEstablishment(name: string, slug: string, address: string, ownerId: string)
    | InsertProfile(id: string, nome: string, role: Role, establishmentId: string)
    | InsertService(establishmentId: string, nome: string, priceCents: int, duracao: int)

  /** "Conta pronta!" and /login, an error toast, or the step-3 validation error. */
  datatype Outcome = AccountReady | Failed(message: string) | Invalid(issue: string)

  datatype Submission = Submission(outcome: Outcome, writes: seq<Write>)

  /** The `catch` block: an "already registered" message still counts as success. */
  function Caught(message: string): (o: Outcome)
    ensures o == AccountReady <==> AlreadyRegistered(message)
    ensures !AlreadyRegistered(message) ==> o == Failed(if message == "" then DefaultError else message)
  {
    if AlreadyRegistered(message) then AccountReady
    else Failed(if message == "" then DefaultError else message)
  }

  /** The two messages the submit throws itself reach the toast unchanged. */
  lemma OwnErrorsShown()
    ensures Caught(UrlTaken) == Failed(UrlTaken)
    ensures Caught(NoUserError) == Failed(NoUserError)
  {
    NoYNotRegistered(UrlTaken);
    NoYNotRegistered(NoUserError);
  }

  /**
   * `handleSubmit`, with the result of each store call as a parameter: the sign-up,
   * the owner's existing establishment (`existing`, its id), the establishment insert,
   * whether a profile exists, and the errors of the profile and service inserts.
   * `priceCents` is the parsed price. Every error thrown after validation goes through
   * `Caught`.
   */
  function Submit(f: FormData, priceCents: int, signUp: SignUpResult, existing: Option<string>,
                  created: EstablishmentInsert, profileExists: bool,
                  profileError: Option<string>, serviceError: Option<string>): (r: Submission)
    ensures Step3Error(f.serviceName, f.servicePrice).Some? ==>
      r == Submission(Invalid(Step3Error(f.serviceName, f.servicePrice).value), [])
    ensures Step3Error(f.serviceName, f.servicePrice).None? && signUp.SignUpFailed? ==>
      r == Submission(Caught(signUp.message), [])
    ensures Step3Error(f.serviceName, f.servicePrice).None? && signUp.SignUpNoUser? ==>
      r == Submission(Failed(NoUserError), [])
    ensures (Step3Error(f.serviceName, f.servicePrice).None? && signUp.SignedUp? && !Truthy(existing) &&
             created.EstablishmentFailed? && created.code == UniqueViolation) ==>
      r == Submission(Failed(UrlTaken), [InsertEstablishment(f.barbershopName, f.slug, f.address, signUp.userId)])
    ensures forall w :: w in r.writes && w.InsertService? ==>
      existing.None? && w.duracao == 30 && w.nome == f.serviceName && w.priceCents == priceCents
    ensures existing.Some? ==> forall w :: w in r.writes ==> !w.InsertService?
  {
    if Step3Error(f.serviceName, f.servicePrice).Some? then
      Submission(Invalid(Step3Error(f.serviceName, f.servicePrice).value), [])
    else
      match signUp
      case SignUpFailed(m) => Submission(Caught(m), [])
      case SignUpNoUser =>
        OwnErrorsShown();
        Submission(Caught(NoUserError), [])
      case SignedUp(userId) =>
        var estRow := InsertEstablishment(f.barbershopName, f.slug, f.address, userId);
        if !Truthy(existing) && created.EstablishmentFailed? then
          OwnErrorsShown();
          Submission(if created.code == UniqueViolation then Caught(UrlTaken) else Caught(created.message), [estRow])
        else
          var estWrites := if Truthy(existing) then [] else [estRow];
          var estId := if Truthy(existing) then existing.value else created.id;
          var profileRow := InsertProfile(userId, f.name, Owner, estId);
          var profileWrites := if profileExists then estWrites else estWrites + [profileRow];
          if !profileExists && profileError.Some? then Submission(Caught(profileError.value), profileWrites)
          else if existing.Some? then Submission(AccountReady, profileWrites)
          else
            var serviceRow := InsertService(estId, f.serviceName, priceCents, 30);
            Submission(if serviceError.Some? then Caught(serviceError.value) else AccountReady, profileWrites + [serviceRow])
  }

  /** With every store call succeeding for a new owner, the three rows are written in order and the account is ready. */
  lemma NewOwnerWritesThreeRows(f: FormData, priceCents: int, userId: string, estId: string)
    requires Step3Error(f.serviceName, f.servicePrice).None?
    ensures Submit(f, priceCents, SignedUp(userId), None, EstablishmentCreated(estId), false, None, None) ==
      Submission(AccountReady, [InsertEstablishment(f.barbershopName, f.slug, f.address, userId),
                                InsertProfile(userId, f.name, Owner, estId),
                                InsertService(estId, f.serviceName, priceCents, 30)])
  {
  }

  /**
   * The `catch` fallback also turns a failed profile insert whose message mentions
   * "already registered" into success, and the initial service is then never created.
   */
  lemma ProfileFailureCanReportSuccess(f: FormData, priceCents: int, userId: string, estId: string)
    requires Step3Error(f.serviceName, f.servicePrice).None?
    ensures var r := Submit(f, priceCents, SignedUp(userId), None, EstablishmentCreated(estId), false,
                            Some("User already registered"), None);
      r.outcome == AccountReady && forall w :: w in r.writes ==> !w.InsertService?
  {
    assert OccursAt("User already registered", "User already registered", 0);
  }
}
