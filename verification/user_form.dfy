/** The admin's create/edit user form (src/components/CreateEditUserModal.tsx): the
    field validator with its e-mail pattern, the form a modal opens with, and the request
    a valid form sends. */
module UserForm {
  import opened Optional
  import opened Strings

  // ---- The e-mail pattern ----

  /** A character the class `[^\s@]` accepts. */
  predicate IsPlain(c: char) {
    !IsJsWhitespace(c) && c != '@'
  }

  predicate AllPlain(s: string) {
    forall i :: 0 <= i < |s| ==> IsPlain(s[i])
  }

  /** The reference reading of `^[^\s@]+@[^\s@]+\.[^\s@]+$`: an `@` at `at` and a `.` at
      `dot`, with non-empty runs before the `@`, between the two and after the `.`, and
      every other character neither whitespace nor `@`. */
  predicate MatchesAt(s: string, at: int, dot: int) {
    && 0 < at && at + 1 < dot < |s| - 1
    && s[at] == '@' && s[dot] == '.'
    && forall i :: 0 <= i < |s| && i != at ==> IsPlain(s[i])
  }

  ghost predicate MatchesEmailPattern(s: string) {
    exists at, dot :: MatchesAt(s, at, dot)
  }

  /** The index of the first `c` in `s`, or -1. */
  function IndexOf(s: string, c: char): (r: int)
    ensures -1 <= r < |s|
    ensures r == -1 <==> c !in s
    ensures r >= 0 ==> s[r] == c && forall j :: 0 <= j < r ==> s[j] != c
  {
    if s == [] then -1
    else if s[0] == c then 0
    else
      var r := IndexOf(s[1..], c);
      if r == -1 then -1
      else
        assert forall j :: 1 <= j < r + 1 ==> s[j] == s[1..][j - 1];
        r + 1
  }

  /** A direct check of the pattern: split at the first `@`; the part before must be
      non-empty and plain; the part after must be plain and carry a `.` that is neither
      its first nor its last character. */
  function IsValidEmail(s: string): (valid: bool)
    ensures valid ==> '@' in s && |s| >= 5
  {
    var at := IndexOf(s, '@');
    && at > 0
    && AllPlain(s[..at])
    && var domain := s[at + 1..];
    && AllPlain(domain)
    && |domain| >= 3
    && '.' in domain[1..|domain| - 1]
  }

  /** The direct check accepts exactly the strings the pattern matches. */
  lemma EmailCheckMatchesPattern(s: string)
    ensures IsValidEmail(s) <==> MatchesEmailPattern(s)
  {
    var at := IndexOf(s, '@');
    if IsValidEmail(s) {
      var domain := s[at + 1..];
      var mid := domain[1..|domain| - 1];
      var k :| 0 <= k < |mid| && mid[k] == '.';
      var dot := at + 2 + k;
      assert s[dot] == domain[k + 1] == mid[k];
      forall i | 0 <= i < |s| && i != at
        ensures IsPlain(s[i])
      {
        if i < at {
          assert s[i] == s[..at][i];
        } else {
          assert s[i] == domain[i - at - 1];
        }
      }
      assert MatchesAt(s, at, dot);
    }
    if MatchesEmailPattern(s) {
      var a, dot :| MatchesAt(s, a, dot);
      assert at != -1 by { assert s[a] == '@'; }
      assert at <= a;
      assert at < a ==> IsPlain(s[at]);
      var domain := s[at + 1..];
      assert AllPlain(s[..at]) by {
        forall i | 0 <= i < at ensures IsPlain(s[..at][i]) {
          assert s[..at][i] == s[i];
        }
      }
      assert AllPlain(domain) by {
        forall i | 0 <= i < |domain| ensures IsPlain(domain[i]) {
          assert domain[i] == s[at + 1 + i];
        }
      }
      assert domain[1..|domain| - 1][dot - at - 2] == s[dot];
    }
  }

  /** Concretely: one `@`, no whitespace, a non-empty local part. */
  lemma ValidEmailShape(s: string)
    requires IsValidEmail(s)
    ensures forall i :: 0 <= i < |s| ==> !IsJsWhitespace(s[i])
    ensures forall i, j :: 0 <= i < |s| && 0 <= j < |s| && s[i] == '@' && s[j] == '@' ==> i == j
    ensures s[0] != '@'
  {
    EmailCheckMatchesPattern(s);
    var at, dot :| MatchesAt(s, at, dot);
  }

  lemma ExampleValidEmail()
    ensures MatchesEmailPattern("ana@movida.com.br")
  {
    assert MatchesAt("ana@movida.com.br", 3, 10);
  }

  lemma ExampleEmailWithoutDot()
    ensures !MatchesEmailPattern("ana@localhost")
  {
    var s := "ana@localhost";
    assert forall i :: 0 <= i < |s| ==> s[i] != '.';
  }

  // ---- The form ----

  datatype Form = Form(
    nome: string,
    sobrenome: string,
    email: string,
    nomeLogin: string,
    tipoUsuarioId: int,
    ativo: bool)

  /** The part of an admin user record the modal reads. */
  datatype AdminUser = AdminUser(
    usuarioId: int,
    nome: Option<string>,
    sobrenome: Option<string>,
    email: Option<string>,
    nomeLogin: Option<string>,
    tipoUsuarioId: Option<int>,
    ativo: Option<bool>)

  const BLANK_FORM: Form := Form("", "", "", "", 0, true)

  /** The form the modal opens with: the user's fields in edit mode (missing ones empty,
      the profile 0, active unless stated), a blank active form in create mode. */
  function InitialForm(user: Option<AdminUser>): (f: Form)
    ensures user.None? ==> f == BLANK_FORM
    ensures user.Some? ==>
      && f.nome == user.value.nome.GetOr("") && f.sobrenome == user.value.sobrenome.GetOr("")
      && f.email == user.value.email.GetOr("")
      && f.nomeLogin == user.value.nomeLogin.GetOr("")
      && f.tipoUsuarioId == OrElseInt(user.value.tipoUsuarioId, 0)
      && f.ativo == user.value.ativo.GetOr(true)
  {
    match user
    case None => BLANK_FORM
    case Some(u) =>
      Form(u.nome.GetOr(""), u.sobrenome.GetOr(""), u.email.GetOr(""), u.nomeLogin.GetOr(""),
           OrElseInt(u.tipoUsuarioId, 0), u.ativo.GetOr(true))
  }

  /** The fields the validator can flag (the keys of its error record). */
  datatype Field = Nome | Sobrenome | Email | NomeLogin | TipoUsuarioId

  const NOME_REQUIRED := "Nome é obrigatório"
  const SOBRENOME_REQUIRED := "Sobrenome é obrigatório"
  const EMAIL_REQUIRED := "Email é obrigatório"
  const EMAIL_INVALID := "Email inválido"
  const LOGIN_REQUIRED := "Login é obrigatório"
  const PROFILE_REQUIRED := "Perfil é obrigatório"

  /** The error map `validateForm` builds, field by field in the source's order;
      `editing` says a user was given. */
  function Errors(f: Form, editing: bool): (e: map<Field, string>)
    ensures Nome in e <==> IsBlank(f.nome)
    ensures Sobrenome in e <==> IsBlank(f.sobrenome)
    ensures Email in e <==> IsBlank(f.email) || !IsValidEmail(f.email)
    ensures Email in e ==> (e[Email] == EMAIL_REQUIRED <==> IsBlank(f.email))
    ensures NomeLogin in e <==> !editing && IsBlank(f.nomeLogin)
    ensures TipoUsuarioId in e <==> f.tipoUsuarioId == 0
  {
    ErrorsOf(IsBlank(f.nome), IsBlank(f.sobrenome), IsBlank(f.email), IsValidEmail(f.email),
             !editing && IsBlank(f.nomeLogin), f.tipoUsuarioId == 0)
  }

  /** The error map from the outcome of each check, built in the source's order. */
  function ErrorsOf(blankNome: bool, blankSobrenome: bool, blankEmail: bool, emailMatches: bool,
                    loginMissing: bool, noProfile: bool): (e: map<Field, string>)
    ensures Nome in e <==> blankNome
    ensures Sobrenome in e <==> blankSobrenome
    ensures Email in e <==> blankEmail || !emailMatches
    ensures Email in e ==> (e[Email] == EMAIL_REQUIRED <==> blankEmail)
    ensures NomeLogin in e <==> loginMissing
    ensures TipoUsuarioId in e <==> noProfile
  {
    var e1 := Flag(map[], blankNome, Nome, NOME_REQUIRED);
    var e2 := Flag(e1, blankSobrenome, Sobrenome, SOBRENOME_REQUIRED);
    var e3 := Flag(e2, blankEmail || !emailMatches, Email,
                   if blankEmail then EMAIL_REQUIRED else EMAIL_INVALID);
    var e4 := Flag(e3, loginMissing, NomeLogin, LOGIN_REQUIRED);
    Flag(e4, noProfile, TipoUsuarioId, PROFILE_REQUIRED)
  }

  /** Records `msg` for `k` when `cond` holds. */
  function Flag(e: map<Field, string>, cond: bool, k: Field, msg: string): (r: map<Field, string>)
    ensures r.Keys == if cond then e.Keys + {k} else e.Keys
    ensures cond ==> r[k] == msg
    ensures forall j :: j in e && j != k ==> r[j] == e[j]
  {
    if cond then e[k := msg] else e
  }

  /** `validateForm`: true exactly when no error was recorded. */
  function ValidateForm(f: Form, editing: bool): (ok: bool)
    ensures ok <==> |Errors(f, editing)| == 0
  {
    |Errors(f, editing)| == 0
  }

  /** A string the pattern matches is not blank. */
  lemma MatchingEmailNotBlank(s: string)
    requires MatchesEmailPattern(s)
    ensures !IsBlank(s)
  {
    var at, dot :| MatchesAt(s, at, dot);
    BlankIffAllWhitespace(s);
    assert IsPlain(s[0]);
  }

  /** The form is valid exactly when the names are not blank, the e-mail matches the
      pattern, a login is given when creating, and a profile is chosen. */
  lemma ValidateFormIff(f: Form, editing: bool)
    ensures ValidateForm(f, editing) <==>
      !IsBlank(f.nome) && !IsBlank(f.sobrenome) && MatchesEmailPattern(f.email)
      && (editing || !IsBlank(f.nomeLogin)) && f.tipoUsuarioId != 0
  {
    var e := Errors(f, editing);
    EmailCheckMatchesPattern(f.email);
    if MatchesEmailPattern(f.email) {
      MatchingEmailNotBlank(f.email);
    }
    if e != map[] {
      var k :| k in e;
    }
  }

  /** A create form whose text fields are all blank and with no profile flags every field,
      the e-mail with the "required" message rather than the "invalid" one. */
  lemma BlankCreateFormFlagsEverything(f: Form)
    requires IsBlank(f.nome) && IsBlank(f.sobrenome) && IsBlank(f.email) && IsBlank(f.nomeLogin)
    requires f.tipoUsuarioId == 0
    ensures Errors(f, false).Keys == {Nome, Sobrenome, Email, NomeLogin, TipoUsuarioId}
    ensures Errors(f, false)[Email] == EMAIL_REQUIRED
  {
    AllFlagsSet(IsValidEmail(f.email));
  }

  /** The form a new user starts from is such a form. */
  lemma BlankFormIsBlank()
    ensures IsBlank(BLANK_FORM.nome) && IsBlank(BLANK_FORM.sobrenome)
    ensures IsBlank(BLANK_FORM.email) && IsBlank(BLANK_FORM.nomeLogin)
    ensures BLANK_FORM.tipoUsuarioId == 0
  {
    BlankIffAllWhitespace("");
  }

  lemma AllFlagsSet(emailMatches: bool)
    ensures ErrorsOf(true, true, true, emailMatches, true, true).Keys
         == {Nome, Sobrenome, Email, NomeLogin, TipoUsuarioId}
  {
    var e := ErrorsOf(true, true, true, emailMatches, true, true);
    forall k: Field
      ensures k in e.Keys
    {
      match k
      case Nome =>
      case Sobrenome =>
      case Email =>
      case NomeLogin =>
      case TipoUsuarioId =>
    }
  }

  /** Switching from create to edit can only remove the login error. */
  lemma EditingRelaxesLogin(f: Form)
    ensures Errors(f, true).Keys == Errors(f, false).Keys - {NomeLogin}
  {
    LoginFlagOnly(IsBlank(f.nome), IsBlank(f.sobrenome), IsBlank(f.email), IsValidEmail(f.email),
                  IsBlank(f.nomeLogin), f.tipoUsuarioId == 0);
  }

  /** Clearing the login check removes at most the login error. */
  lemma LoginFlagOnly(blankNome: bool, blankSobrenome: bool, blankEmail: bool, emailMatches: bool,
                      loginMissing: bool, noProfile: bool)
    ensures ErrorsOf(blankNome, blankSobrenome, blankEmail, emailMatches, false, noProfile).Keys
         == ErrorsOf(blankNome, blankSobrenome, blankEmail, emailMatches, loginMissing, noProfile).Keys - {NomeLogin}
  {
    var a := ErrorsOf(blankNome, blankSobrenome, blankEmail, emailMatches, false, noProfile);
    var b := ErrorsOf(blankNome, blankSobrenome, blankEmail, emailMatches, loginMissing, noProfile);
    forall k: Field
      ensures k in a.Keys <==> k in b.Keys - {NomeLogin}
    {
      match k
      case Nome =>
      case Sobrenome =>
      case Email =>
      case NomeLogin =>
      case TipoUsuarioId =>
    }
  }

  // ---- Submitting ----

  /** The create request fixes the role to sales (`tipoAtuacaoId` 1). */
  const TIPO_ATUACAO_VENDAS := 1

  datatype UserRequest = UserRequest(
    nome: string,
    sobrenome: string,
    email: string,
    nomeLogin: Option<string>,
    tipoUsuarioId: int,
    tipoAtuacaoId: Option<int>,
    ativo: bool)

  datatype SubmitOutcome =
    | Invalid(errors: map<Field, string>)
    | Update(usuarioId: int, request: UserRequest)
    | Create(request: UserRequest)

  /** `handleSubmit`: a form with errors sends nothing; editing updates the user without
      a login; creating sends the login and the sales role. */
  function Submit(f: Form, user: Option<AdminUser>): (r: SubmitOutcome)
    ensures r.Invalid? <==> !ValidateForm(f, user.Some?)
    ensures r.Invalid? ==> r.errors == Errors(f, user.Some?) && r.errors != map[]
    ensures r.Update? <==> user.Some? && ValidateForm(f, true)
    ensures r.Update? ==> r.usuarioId == user.value.usuarioId && r.request.nomeLogin.None? && r.request.tipoAtuacaoId.None?
    ensures r.Create? ==> r.request.nomeLogin == Some(f.nomeLogin) && r.request.tipoAtuacaoId == Some(TIPO_ATUACAO_VENDAS)
    ensures !r.Invalid? ==>
      && r.request.nome == f.nome && r.request.sobrenome == f.sobrenome && r.request.email == f.email
      && r.request.tipoUsuarioId == f.tipoUsuarioId && r.request.ativo == f.ativo
  {
    if !ValidateForm(f, user.Some?) then Invalid(Errors(f, user.Some?))
    else if user.Some? then
      Update(user.value.usuarioId, UserRequest(f.nome, f.sobrenome, f.email, None, f.tipoUsuarioId, None, f.ativo))
    else
      Create(UserRequest(f.nome, f.sobrenome, f.email, Some(f.nomeLogin), f.tipoUsuarioId, Some(TIPO_ATUACAO_VENDAS), f.ativo))
  }

  /** Whatever is sent carries non-blank names, an e-mail the pattern accepts and a chosen
      profile, and a created user carries a non-blank login. */
  lemma SubmittedRequestIsValid(f: Form, user: Option<AdminUser>)
    ensures var r := Submit(f, user);
      !r.Invalid? ==>
        && !IsBlank(r.request.nome) && !IsBlank(r.request.sobrenome)
        && MatchesEmailPattern(r.request.email) && r.request.tipoUsuarioId != 0
    ensures var r := Submit(f, user);
      r.Create? ==> r.request.nomeLogin.Some? && !IsBlank(r.request.nomeLogin.value)
  {
    ValidateFormIff(f, user.Some?);
  }
}
