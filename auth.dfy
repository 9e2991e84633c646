/** The users table (`usuarios`) and the handlers of routes_auth.py.
    Password hashing, credential checking and token signing belong to an
    authentication layer outside this model; they enter as function
    parameters, so nothing is assumed about them beyond their types. */
module Auth {
  import opened Common
  import opened Models

  /** A row of `usuarios`; the flags are stored as numbers. */
  datatype Usuario = Usuario(
    id: int, nomeCompleto: string, senhaHash: string, setor: string,
    isAdmin: int, ativo: int, dataCadastro: Timestamp)

  /** The current user as the authentication layer hands it to a route. */
  datatype UsuarioAtual = UsuarioAtual(
    id: int, nomeCompleto: string, setor: string,
    isAdmin: bool, ativo: bool, dataCadastro: Option<Timestamp>)

  datatype AuthError = DuplicateName | Unauthorized

  /** The claims put into an access token. */
  datatype Claims = Claims(sub: string)

  datatype Token = Token(accessToken: string, tokenType: string, user: UsuarioResponse)

  /** The value the `ativo` column takes on insert (a database default). */
  const AtivoPadrao := 1

  // ---------------------------------------------------------------------
  // Flags stored as numbers
  // ---------------------------------------------------------------------

  /** Python's `bool(v)` of a stored number. */
  predicate Truthy(v: int) {
    v != 0
  }

  /** `1 if b else 0`: what is stored for a flag, read back by `bool`. */
  function FlagColumn(b: bool): (v: int)
    ensures v == 0 || v == 1
    ensures Truthy(v) == b
  {
    if b then 1 else 0
  }

  // ---------------------------------------------------------------------
  // Python's str(int), and reading it back
  // ---------------------------------------------------------------------

  predicate IsDigit(c: char) {
    '0' <= c <= '9'
  }

  predicate AllDigits(s: string) {
    forall i :: 0 <= i < |s| ==> IsDigit(s[i])
  }

  function DigitChar(d: int): (c: char)
    requires 0 <= d < 10
    ensures IsDigit(c) && c as int - '0' as int == d
  {
    ('0' as int + d) as char
  }

  /** The decimal digits of n, most significant first. */
  function NatToStr(n: nat): (s: string)
    ensures |s| > 0 && AllDigits(s)
    ensures s[0] == '0' <==> n == 0
    decreases n
  {
    if n < 10 then [DigitChar(n)] else NatToStr(n / 10) + [DigitChar(n % 10)]
  }

  /** `str(n)`: a minus sign for negative numbers, then the digits, with
      no leading zero. */
  function IntToStr(n: int): (s: string)
    ensures n >= 0 ==> |s| > 0 && AllDigits(s) && (s[0] == '0' <==> n == 0)
    ensures n < 0 ==> |s| > 1 && s[0] == '-' && AllDigits(s[1..]) && s[1] != '0'
  {
    if n < 0 then "-" + NatToStr(-n) else NatToStr(n)
  }

  function ParseNat(s: string): nat
    requires |s| > 0 && AllDigits(s)
    decreases |s|
  {
    var last := s[|s| - 1] as int - '0' as int;
    if |s| == 1 then last else ParseNat(s[..|s| - 1]) * 10 + last
  }

  /** `int(s)` on a decimal numeral, None on anything else. */
  function ParseInt(s: string): Option<int> {
    if |s| > 1 && s[0] == '-' && AllDigits(s[1..]) then Some(0 - ParseNat(s[1..]))
    else if |s| > 0 && AllDigits(s) then Some(ParseNat(s))
    else None
  }

  lemma {:induction false} NatToStrRoundTrip(n: nat)
    ensures ParseNat(NatToStr(n)) == n
    decreases n
  {
    if n >= 10 {
      var s := NatToStr(n);
      NatToStrRoundTrip(n / 10);
      assert s[..|s| - 1] == NatToStr(n / 10);
      assert s[|s| - 1] == DigitChar(n % 10);
    }
  }

  /** Reading `str(n)` back gives n: the token subject names one user. */
  lemma IntToStrRoundTrip(n: int)
    ensures ParseInt(IntToStr(n)) == Some(n)
  {
    var s := IntToStr(n);
    if n < 0 {
      assert s == "-" + NatToStr(-n);
      assert s[1..] == NatToStr(-n);
      NatToStrRoundTrip(-n);
      assert ParseInt(s) == Some(0 - ParseNat(s[1..]));
    } else {
      assert s == NatToStr(n);
      NatToStrRoundTrip(n);
      assert IsDigit(s[0]) && !IsDigit('-');
      assert ParseInt(s) == Some(ParseNat(s));
    }
  }

  lemma IntToStrInjective(a: int, b: int)
    requires IntToStr(a) == IntToStr(b)
    ensures a == b
  {
    IntToStrRoundTrip(a);
    IntToStrRoundTrip(b);
  }

  // ---------------------------------------------------------------------
  // login and get_me
  // ---------------------------------------------------------------------

  /** get_me: the six fields of the current user, unchanged. */
  function GetMe(current: UsuarioAtual): (r: UsuarioResponse)
    ensures r.id == current.id && r.nomeCompleto == current.nomeCompleto && r.setor == current.setor
    ensures r.isAdmin == current.isAdmin && r.ativo == current.ativo && r.dataCadastro == current.dataCadastro
  {
    UsuarioResponse(current.id, current.nomeCompleto, current.setor,
                    current.isAdmin, current.ativo, current.dataCadastro)
  }

  /** login: Unauthorized when the credentials match no user; otherwise a
      bearer token whose subject is the user's id as a decimal string. */
  function Login(
    credentials: UsuarioLogin,
    authenticate: (string, string) -> Option<UsuarioAtual>,
    createToken: (Claims, int) -> string,
    expireMinutes: int): (r: Result<Token, AuthError>)
    ensures r.Failure? <==> authenticate(credentials.nomeCompleto, credentials.senha).None?
    ensures r.Failure? ==> r.error == Unauthorized
    ensures r.Success? ==>
              var u := authenticate(credentials.nomeCompleto, credentials.senha).value;
              && r.value.tokenType == "bearer"
              && r.value.user == GetMe(u)
              && r.value.accessToken == createToken(Claims(IntToStr(u.id)), expireMinutes)
              && ParseInt(IntToStr(u.id)) == Some(u.id)
  {
    var found := authenticate(credentials.nomeCompleto, credentials.senha);
    if found.None? then Failure(Unauthorized)
    else
      var u := found.value;
      var sub := IntToStr(u.id);
      IntToStrRoundTrip(u.id);
      Success(Token(createToken(Claims(sub), expireMinutes), "bearer", GetMe(u)))
  }

  // ---------------------------------------------------------------------
  // The users table and register
  // ---------------------------------------------------------------------

  ghost predicate UniqueNames(u: map<int, Usuario>) {
    forall k, k' :: k in u && k' in u && u[k].nomeCompleto == u[k'].nomeCompleto ==> k == k'
  }

  ghost predicate UsuariosValidos(u: map<int, Usuario>, nextId: int) {
    (forall k :: k in u ==> u[k].id == k && 1 <= k < nextId) && UniqueNames(u) && 1 <= nextId
  }

  /** The response built from a stored row: the flags read back with `bool`. */
  function Resposta(row: Usuario): (r: UsuarioResponse)
    ensures r.id == row.id && r.nomeCompleto == row.nomeCompleto && r.setor == row.setor
    ensures r.isAdmin == (row.isAdmin != 0) && r.ativo == (row.ativo != 0)
    ensures r.dataCadastro == Some(row.dataCadastro)
  {
    UsuarioResponse(row.id, row.nomeCompleto, row.setor,
                    Truthy(row.isAdmin), Truthy(row.ativo), Some(row.dataCadastro))
  }

  class UserStore {
    var usuarios: map<int, Usuario>
    var nextId: int

    ghost predicate Valid()
      reads this
    {
      UsuariosValidos(usuarios, nextId)
    }

    constructor (usuarios0: map<int, Usuario>, nextId0: int)
      requires UsuariosValidos(usuarios0, nextId0)
      ensures Valid() && usuarios == usuarios0 && nextId == nextId0
    {
      usuarios := usuarios0;
      nextId := nextId0;
    }

    /** register: refuses a name already present; otherwise inserts one row
        holding the hash of the password, never the password itself. */
    method Register(user: UsuarioCreate, hash: string -> string, now: Timestamp) returns (r: Result<UsuarioResponse, AuthError>)
      requires Valid() && ValidUsuarioCreate(user)
      modifies this
      ensures Valid()
      ensures r.Failure? <==> exists k :: k in old(usuarios) && old(usuarios)[k].nomeCompleto == user.nomeCompleto
      ensures r.Failure? ==> r.error == DuplicateName && usuarios == old(usuarios) && nextId == old(nextId)
      ensures r.Success? ==>
                var row := Usuario(old(nextId), user.nomeCompleto, hash(user.senha), user.setor,
                                   FlagColumn(user.isAdmin), AtivoPadrao, now);
                && old(nextId) !in old(usuarios)
                && usuarios == old(usuarios)[old(nextId) := row]
                && nextId == old(nextId) + 1
                && r.value == Resposta(row)
      ensures r.Success? ==>
                r.value.nomeCompleto == user.nomeCompleto && r.value.setor == user.setor
                && r.value.isAdmin == user.isAdmin && r.value.ativo
    {
      if exists k :: k in usuarios && usuarios[k].nomeCompleto == user.nomeCompleto {
        r := Failure(DuplicateName);
        return;
      }
      var hashed := hash(user.senha);
      var row := Usuario(nextId, user.nomeCompleto, hashed, user.setor, FlagColumn(user.isAdmin), AtivoPadrao, now);
      assert nextId !in usuarios;
      usuarios := usuarios[nextId := row];
      nextId := nextId + 1;
      r := Success(Resposta(row));
    }
  }
}
