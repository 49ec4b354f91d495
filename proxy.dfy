/** `ProxyDescriptor` of utils.php: parsing and validating a proxy given as
    `[type://][login:password@]address[/]` together with separately passed parts. */
module Proxy {
  import opened Wrappers
  import opened Strings
  import opened Php

  // ---------------------------------------------------------------------------
  // The address pattern
  //   ^(?:(?P<type>[^:]+?)://)?(?:(?<login>[^/:]+):(?<password>[^/@]+)@)?(?P<address>[^/@]+?)/?$

  /** The named groups of the pattern; a group that took no part in the match is `''`. */
  datatype AddressMatch = AddressMatch(proxyType: string, login: string, password: string, address: string)

  /** What `$match` holds when the pattern does not match: no group at all. */
  const NoMatch := AddressMatch("", "", "", "")

  /** `[^:]+` */
  predicate TypeText(t: string)
  {
    t != [] && NoneIn(t, {':'})
  }

  /** `[^/:]+` */
  predicate LoginText(l: string)
  {
    l != [] && NoneIn(l, {'/', ':'})
  }

  /** `[^/@]+`, the class of both the password and the address. */
  predicate PasswordText(p: string)
  {
    p != [] && NoneIn(p, {'/', '@'})
  }

  /** The string a set of groups stands for, with or without the trailing `/`. */
  function Compose(m: AddressMatch, slash: bool): string
  {
    (if m.proxyType != [] then m.proxyType + "://" else "") + AfterType(m, slash)
  }

  /** The part of a composed string after its type group. */
  function AfterType(m: AddressMatch, slash: bool): string
  {
    (if m.login != [] then m.login + ":" + m.password + "@" else "") + AddressTail(m.address, slash)
  }

  /** The address group and the optional trailing `/`. */
  function AddressTail(address: string, slash: bool): string
  {
    address + (if slash then "/" else "")
  }

  /** Each group matches its character class; the type, and the login with the
      password, are either absent or present. */
  predicate ValidGroups(m: AddressMatch)
  {
    && (m.proxyType == [] || TypeText(m.proxyType))
    && ((m.login == [] && m.password == []) || (LoginText(m.login) && PasswordText(m.password)))
    && PasswordText(m.address)
  }

  /** The groups are a match of the whole pattern against `s`. */
  predicate Decomposes(s: string, m: AddressMatch)
  {
    ValidGroups(m) && (s == Compose(m, false) || s == Compose(m, true))
  }

  /** The type group and the rest: the type ends at the first `:` when `://` follows. */
  function SplitType(s: string): (string, string)
  {
    var c := FirstIndexIn(s, {':'});
    if 0 < c && c + 3 <= |s| && s[c..c + 3] == "://" then (s[..c], s[c + 3..]) else ("", s)
  }

  /** The login and password groups and the rest: when the rest holds an `@`, the login
      ends at its first `:` and the password at the next `@`. */
  function SplitCredentials(rest: string): (string, string, string)
  {
    if FirstIndexIn(rest, {'@'}) == |rest| then ("", "", rest)
    else
      var colon := FirstIndexIn(rest, {':'});
      var afterColon := if colon < |rest| then rest[colon + 1..] else [];
      var at := FirstIndexIn(afterColon, {'@'});
      (rest[..colon], afterColon[..at], if at < |afterColon| then afterColon[at + 1..] else [])
  }

  /** The address group: the rest without a final `/`. */
  function StripSlash(tail: string): string
  {
    if tail != [] && tail[|tail| - 1] == '/' then tail[..|tail| - 1] else tail
  }

  /** The only groups that can match `s`. */
  function Candidate(s: string): AddressMatch
  {
    var (proxyType, rest) := SplitType(s);
    var (login, password, tail) := SplitCredentials(rest);
    AddressMatch(proxyType, login, password, StripSlash(tail))
  }

  /** `preg_match` of the address pattern: the groups when it matches. */
  function MatchAddress(s: string): (r: Option<AddressMatch>)
    ensures r.Some? ==> Decomposes(s, r.value)
  {
    var m := Candidate(s);
    if Decomposes(s, m) then Some(m) else None
  }

  /** A type group ends at the first `:`, which `://` follows. */
  lemma TypeFound(proxyType: string, rest: string)
    requires TypeText(proxyType)
    ensures SplitType(proxyType + "://" + rest) == (proxyType, rest)
  {
    var s := proxyType + "://" + rest;
    assert s == proxyType + ("://" + rest);
    FirstIndexAfter(proxyType, "://" + rest, {':'});
    assert s[|proxyType|..|proxyType| + 3] == "://";
    assert s[|proxyType| + 3..] == rest;
    assert s[..|proxyType|] == proxyType;
  }

  /** The part after the credentials: the address and an optional `/`. */
  lemma AddressTailFound(address: string, slash: bool)
    requires PasswordText(address)
    ensures StripSlash(AddressTail(address, slash)) == address
  {
    if !slash {
      assert address[|address| - 1] != '/';
    }
  }

  /** The credentials part `login:password@tail` is split where SplitCredentials splits it. */
  lemma CredentialsFound(login: string, password: string, tail: string)
    requires LoginText(login) && PasswordText(password)
    ensures SplitCredentials(login + ":" + password + "@" + tail) == (login, password, tail)
  {
    var rest := login + ":" + password + "@" + tail;
    var afterColon := password + ("@" + tail);
    assert rest == login + (":" + afterColon);
    assert FirstIndexIn(rest, {':'}) == |login| by {
      FirstIndexAfter(login, ":" + afterColon, {':'});
    }
    assert FirstIndexIn(rest, {'@'}) < |rest| by {
      assert rest[|login| + 1 + |password|] == '@';
    }
    assert rest[..|login|] == login;
    assert rest[|login| + 1..] == afterColon;
    assert FirstIndexIn(afterColon, {'@'}) == |password| by {
      FirstIndexAfter(password, "@" + tail, {'@'});
    }
    assert afterColon[..|password|] == password;
    assert afterColon[|password| + 1..] == tail;
  }

  /** Without credentials, SplitCredentials leaves the rest whole. */
  lemma NoCredentialsFound(tail: string)
    requires NoneIn(tail, {'@'})
    ensures SplitCredentials(tail) == ("", "", tail)
  {
    assert tail + [] == tail;
    FirstIndexAfter(tail, [], {'@'});
  }

  /** The groups after the type: whatever decomposes the rest is what Candidate finds. */
  lemma RestFound(m: AddressMatch, slash: bool)
    requires ValidGroups(m)
    ensures SplitCredentials(AfterType(m, slash)) == (m.login, m.password, AddressTail(m.address, slash))
  {
    var tail := AddressTail(m.address, slash);
    if m.login != [] {
      CredentialsFound(m.login, m.password, tail);
    } else {
      assert AfterType(m, slash) == tail;
      NoCredentialsFound(tail);
    }
  }

  /** Without a type group no `/` but the last character can occur, so SplitType
      finds no type. */
  lemma RestTypeFree(m: AddressMatch, slash: bool)
    requires ValidGroups(m)
    ensures SplitType(AfterType(m, slash)) == ("", AfterType(m, slash))
  {
    var rest := AfterType(m, slash);
    var credentials := if m.login != [] then m.login + ":" + m.password + "@" else "";
    var tail := AddressTail(m.address, slash);
    assert NoneIn(credentials, {'/'});
    var c := FirstIndexIn(rest, {':'});
    if 0 < c && c + 3 <= |rest| {
      assert rest[c + 1] != '/' by {
        if c + 1 < |credentials| {
          assert rest[c + 1] == credentials[c + 1];
        } else {
          assert rest[c + 1] == tail[c + 1 - |credentials|] == m.address[c + 1 - |credentials|];
        }
      }
      assert rest[c..c + 3][1] != '/';
    }
  }

  /** The pattern has at most one match, and MatchAddress finds it. */
  lemma MatchAddressComplete(s: string, m: AddressMatch)
    requires Decomposes(s, m)
    ensures MatchAddress(s) == Some(m)
  {
    var slash := s != Compose(m, false);
    var rest := AfterType(m, slash);
    assert SplitType(s) == (m.proxyType, rest) by {
      if m.proxyType != [] {
        TypeFound(m.proxyType, rest);
      } else {
        assert s == rest;
        RestTypeFree(m, slash);
      }
    }
    RestFound(m, slash);
    AddressTailFound(m.address, slash);
  }

  // ---------------------------------------------------------------------------
  // Construction

  /** The distinct rejections of the constructor. */
  datatype ProxyError =
    | TypeConflict
    | UnsupportedType(proxyType: string, allowed: seq<string>)
    | LoginConflict
    | PasswordConflict
    | CredentialsIncomplete
    | LoginHasColon
    | InvalidAddress(address: string)

  /** The exception message of each rejection. */
  function Message(e: ProxyError): string
  {
    match e
    case TypeConflict =>
      "Proxy type is passed multiple times (as part of address and as separate type) and these types are different"
    case UnsupportedType(t, allowed) =>
      "Proxy type '" + t + "' does not allowed or incorrect. Allowed types: " + Join(allowed, ", ")
    case LoginConflict =>
      "Login for proxy is passed multiple times (as part of address and as separate login) and these logins are different"
    case PasswordConflict =>
      "Password for proxy is passed multiple times (as part of address and as separate password) and these passwords are different"
    case CredentialsIncomplete => "Both login and password must be given or not simultaneously."
    case LoginHasColon => "Login must not contain colon ':'."
    case InvalidAddress(address) => InvalidAddressMessage(address)
  }

  /** The invalid-address message as its author intended it: the address quoted. */
  function InvalidAddressMessage(address: string): string
  {
    "Invalid proxy address: '" + address + "'"
  }

  /** The invalid-address message as written: `${$address}` is PHP's variable-variable
      syntax, so it interpolates the local variable whose NAME is the address (`scope`
      maps the constructor's local variable names to their string values) and `''` when
      there is none. */
  function InvalidAddressMessageAsWritten(address: string, scope: map<string, string>): string
  {
    "Invalid proxy address: '" + (if address in scope then scope[address] else "") + "'"
  }

  /** The intended message names the rejected address. */
  lemma InvalidAddressMessageNamesAddress(address: string)
    ensures Contains(Message(InvalidAddress(address)), address)
  {
    ContainsInConcat("Invalid proxy address: '", address, "'");
  }

  /** The defect of the message as written: every address that names no local variable
      gets the same message, which quotes nothing. */
  lemma InvalidAddressMessageAsWrittenLosesAddress(address: string, scope: map<string, string>)
    requires address !in scope
    ensures InvalidAddressMessageAsWritten(address, scope) == "Invalid proxy address: ''"
    ensures InvalidAddressMessageAsWritten("10.0.0.1:3128/x", map[]) != InvalidAddressMessage("10.0.0.1:3128/x")
  {
  }

  /** The four fields of a constructed descriptor. */
  datatype ProxyFields = ProxyFields(address: string, proxyType: string, login: Option<string>, password: Option<string>)

  /** The type argument and the type group reconciled: the group wins, both must agree
      when both are given, and `http` is the default. Types are compared lower-cased. */
  function ResolveType(fromAddress: string, argument: Option<string>): Result<string, ProxyError>
  {
    var argType := Lower(OptToString(argument));
    if !EmptyString(fromAddress) && !EmptyString(argType) && Lower(fromAddress) != argType then Failure(TypeConflict)
    else
      var t := if !EmptyString(fromAddress) then Lower(fromAddress) else argType;
      Success(if EmptyString(t) then "http" else t)
  }

  /** A login or password argument reconciled with its group: the group wins and both
      must agree when both are given. */
  function ResolveCredential(fromAddress: string, argument: Option<string>, conflict: ProxyError): Result<Option<string>, ProxyError>
  {
    if EmptyString(fromAddress) then Success(argument)
    else if !EmptyOpt(argument) && fromAddress != argument.value then Failure(conflict)
    else Success(Some(fromAddress))
  }

  /** What `new ProxyDescriptor($address, $type, $login, $password)` produces, the
      checks in the constructor's order; `supported` are the keys of the supported
      types in their order. */
  function Construct(address: string, typeArg: Option<string>, loginArg: Option<string>,
                     passwordArg: Option<string>, supported: seq<string>): Result<ProxyFields, ProxyError>
  {
    ConstructFrom(MatchAddress(address).GetOr(NoMatch), address, typeArg, loginArg, passwordArg, supported)
  }

  /** The constructor's checks once the address has been matched into `m` (the empty
      groups when it does not match). */
  function ConstructFrom(m: AddressMatch, address: string, typeArg: Option<string>, loginArg: Option<string>,
                         passwordArg: Option<string>, supported: seq<string>): Result<ProxyFields, ProxyError>
  {
    var resolvedType := ResolveType(m.proxyType, typeArg);
    if resolvedType.Failure? then Failure(resolvedType.error)
    else if resolvedType.value !in supported then Failure(UnsupportedType(resolvedType.value, supported))
    else ConstructWithType(m, address, resolvedType.value, loginArg, passwordArg)
  }

  /** The constructor's checks after the type has been settled as `proxyType`. */
  function ConstructWithType(m: AddressMatch, address: string, proxyType: string, loginArg: Option<string>,
                             passwordArg: Option<string>): Result<ProxyFields, ProxyError>
  {
    var login := ResolveCredential(m.login, loginArg, LoginConflict);
    if login.Failure? then Failure(login.error)
    else
      var password := ResolveCredential(m.password, passwordArg, PasswordConflict);
      if password.Failure? then Failure(password.error)
      else if EmptyOpt(login.value) != EmptyOpt(password.value) then Failure(CredentialsIncomplete)
      else if !EmptyOpt(login.value) && ':' in login.value.value then Failure(LoginHasColon)
      else if EmptyString(m.address) then Failure(InvalidAddress(address))
      else Success(ProxyFields(m.address, proxyType, login.value, password.value))
  }

  /** What every constructed descriptor satisfies. */
  predicate ValidFields(f: ProxyFields)
  {
    && f.proxyType != [] && IsLowerCase(f.proxyType)
    && PasswordText(f.address) && f.address != "0"
    && EmptyOpt(f.login) == EmptyOpt(f.password)
    && (!EmptyOpt(f.login) ==> ':' !in f.login.value)
  }

  /** Type reconciliation: the result is lower-case; a type in the address wins over
      the argument, the argument is used otherwise, and `http` when neither gives one;
      two different types are a conflict. */
  lemma ResolveTypeMeaning(fromAddress: string, argument: Option<string>)
    ensures var r := ResolveType(fromAddress, argument);
      var argType := Lower(OptToString(argument));
      && (r.Success? ==> r.value != [] && IsLowerCase(r.value))
      && (r.Success? && !EmptyString(fromAddress) ==> r.value == Lower(fromAddress))
      && (r.Success? && EmptyString(fromAddress) && !EmptyString(argType) ==> r.value == argType)
      && (r.Success? && EmptyString(fromAddress) && EmptyString(argType) ==> r.value == "http")
      && (r.Failure? <==> !EmptyString(fromAddress) && !EmptyString(argType) && Lower(fromAddress) != argType)
  {
    var r := ResolveType(fromAddress, argument);
    if r.Success? {
      assert IsLowerCase(r.value) by {
        var argType := Lower(OptToString(argument));
        if !EmptyString(fromAddress) {
          assert r.value == Lower(fromAddress);
        } else if !EmptyString(argType) {
          assert r.value == argType;
        }
      }
    }
  }

  /** The constructor stores the reconciled type, which is supported, and fails with a
      type conflict exactly when reconciliation does. */
  lemma ConstructType(m: AddressMatch, address: string, typeArg: Option<string>, loginArg: Option<string>,
                      passwordArg: Option<string>, supported: seq<string>)
    ensures var r := ConstructFrom(m, address, typeArg, loginArg, passwordArg, supported);
      var t := ResolveType(m.proxyType, typeArg);
      && (r.Success? ==> t.Success? && r.value.proxyType == t.value && r.value.proxyType in supported)
      && (r == Failure(TypeConflict) <==> t.Failure?)
      && (t.Success? && t.value !in supported ==> r == Failure(UnsupportedType(t.value, supported)))
  {
  }

  /** The reconciled type is already lower-case and never PHP-empty, so passing it
      back as the type argument reconciles to itself and the constructor behaves as
      it did with the original argument. */
  lemma ConstructTypeArgumentStable(m: AddressMatch, address: string, typeArg: Option<string>,
                                    loginArg: Option<string>, passwordArg: Option<string>, supported: seq<string>)
    requires ResolveType(m.proxyType, typeArg).Success?
    ensures var t := ResolveType(m.proxyType, typeArg).value;
      && ResolveType(m.proxyType, Some(t)) == Success(t)
      && ConstructFrom(m, address, Some(t), loginArg, passwordArg, supported)
         == ConstructFrom(m, address, typeArg, loginArg, passwordArg, supported)
  {
    var t := ResolveType(m.proxyType, typeArg).value;
    if !EmptyString(m.proxyType) {
      LowerIdempotent(m.proxyType);
    } else if !EmptyString(Lower(OptToString(typeArg))) {
      LowerIdempotent(OptToString(typeArg));
    } else {
      LowerOfLowerCase("http");
    }
    assert Lower(t) == t;
  }

  /** Login or password reconciliation: the group wins over the argument, and the two
      conflict exactly when both are given and differ. */
  lemma ResolveCredentialMeaning(fromAddress: string, argument: Option<string>, conflict: ProxyError)
    ensures var r := ResolveCredential(fromAddress, argument, conflict);
      && (r.Success? ==> r.value == (if EmptyString(fromAddress) then argument else Some(fromAddress)))
      && (r.Failure? ==> r.error == conflict)
      && (r.Failure? <==> !EmptyString(fromAddress) && !EmptyOpt(argument) && fromAddress != argument.value)
  {
  }

  /** The stored login and password are the reconciled ones, given together or not at
      all, and the login holds no `:`; when the earlier checks pass, an unpaired login
      and password, and then a login with a colon, are the rejections. */
  lemma ConstructCredentials(m: AddressMatch, address: string, typeArg: Option<string>, loginArg: Option<string>,
                             passwordArg: Option<string>, supported: seq<string>)
    ensures var r := ConstructFrom(m, address, typeArg, loginArg, passwordArg, supported);
      var t := ResolveType(m.proxyType, typeArg);
      var login := ResolveCredential(m.login, loginArg, LoginConflict);
      var password := ResolveCredential(m.password, passwordArg, PasswordConflict);
      && (r.Success? ==> login == Success(r.value.login) && password == Success(r.value.password))
      && (r.Success? ==> EmptyOpt(r.value.login) == EmptyOpt(r.value.password))
      && (r.Success? && !EmptyOpt(r.value.login) ==> ':' !in r.value.login.value)
      && (t.Success? && t.value in supported && login.Success? && password.Success? ==>
            && (r == Failure(CredentialsIncomplete) <==> EmptyOpt(login.value) != EmptyOpt(password.value))
            && (r == Failure(LoginHasColon) <==>
                  EmptyOpt(login.value) == EmptyOpt(password.value) && !EmptyOpt(login.value) && ':' in login.value.value))
  {
  }

  /** The stored address is the address group; an empty group, once everything else is
      accepted, is the last rejection. */
  lemma ConstructAddress(m: AddressMatch, address: string, typeArg: Option<string>, loginArg: Option<string>,
                         passwordArg: Option<string>, supported: seq<string>)
    ensures var r := ConstructFrom(m, address, typeArg, loginArg, passwordArg, supported);
      && (r.Success? ==> r.value.address == m.address && !EmptyString(m.address))
      && (r == Failure(InvalidAddress(address)) <==>
            EmptyString(m.address) && ConstructFrom(m.(address := "a"), address, typeArg, loginArg, passwordArg, supported).Success?)
  {
  }

  /** Every descriptor the constructor accepts has a matching address whose address
      group it stores, and satisfies `ValidFields`. */
  lemma ConstructValid(address: string, typeArg: Option<string>, loginArg: Option<string>,
                       passwordArg: Option<string>, supported: seq<string>)
    ensures var r := Construct(address, typeArg, loginArg, passwordArg, supported);
      r.Success? ==>
        && MatchAddress(address).Some?
        && r.value.address == MatchAddress(address).value.address
        && r.value.proxyType in supported
        && ValidFields(r.value)
  {
    var m := MatchAddress(address).GetOr(NoMatch);
    var r := ConstructFrom(m, address, typeArg, loginArg, passwordArg, supported);
    if r.Success? {
      ConstructType(m, address, typeArg, loginArg, passwordArg, supported);
      ResolveTypeMeaning(m.proxyType, typeArg);
      ConstructCredentials(m, address, typeArg, loginArg, passwordArg, supported);
      ConstructAddress(m, address, typeArg, loginArg, passwordArg, supported);
      assert MatchAddress(address).Some? && m == MatchAddress(address).value;
    }
  }

  /** A string composed from groups, passed alone, is accepted with exactly those
      groups: the type lower-cased (`http` when absent) and the credentials present
      exactly when the address carries them. The groups avoid `"0"`, which PHP reads
      as absent. */
  lemma ConstructRoundTrip(m: AddressMatch, slash: bool, supported: seq<string>)
    requires ValidGroups(m)
    requires m.proxyType != "0" && m.login != "0" && m.password != "0" && m.address != "0"
    requires (if m.proxyType == [] then "http" else Lower(m.proxyType)) in supported
    ensures Construct(Compose(m, slash), None, None, None, supported)
      == Success(ProxyFields(m.address,
                             if m.proxyType == [] then "http" else Lower(m.proxyType),
                             if m.login == [] then None else Some(m.login),
                             if m.password == [] then None else Some(m.password)))
  {
    var s := Compose(m, slash);
    MatchAddressComplete(s, m);
    assert Construct(s, None, None, None, supported) == ConstructFrom(m, s, None, None, None, supported);
    GroupsAccepted(m, s, supported);
  }

  /** Valid groups given alone are accepted as they are. */
  lemma GroupsAccepted(m: AddressMatch, address: string, supported: seq<string>)
    requires ValidGroups(m)
    requires m.proxyType != "0" && m.login != "0" && m.password != "0" && m.address != "0"
    requires (if m.proxyType == [] then "http" else Lower(m.proxyType)) in supported
    ensures ConstructFrom(m, address, None, None, None, supported)
      == Success(ProxyFields(m.address,
                             if m.proxyType == [] then "http" else Lower(m.proxyType),
                             if m.login == [] then None else Some(m.login),
                             if m.password == [] then None else Some(m.password)))
  {
    ResolveTypeMeaning(m.proxyType, None);
    assert ResolveType(m.proxyType, None) == Success(if m.proxyType == [] then "http" else Lower(m.proxyType));
  }

  // ---------------------------------------------------------------------------
  // The descriptor object

  /** A proxy: its address (host and optional port), lower-case type and optional
      credentials. */
  class ProxyDescriptor {
    var address: string
    var proxyType: string
    var login: Option<string>
    var password: Option<string>

    /** A freshly allocated descriptor, before its constructor body has stored anything. */
    constructor Blank()
      ensures address == "" && proxyType == "" && login == None && password == None
    {
      address := "";
      proxyType := "";
      login := None;
      password := None;
    }

    /** The stored fields as a value. */
    function Fields(): ProxyFields
      reads this
    {
      ProxyFields(address, proxyType, login, password)
    }

    /** What every descriptor that construction returns satisfies. */
    predicate Valid()
      reads this
    {
      ValidFields(Fields())
    }

    /** `getAddress`: host and optional port, with no `/` or `@` left. */
    function GetAddress(): (a: string)
      reads this
      ensures Valid() ==> PasswordText(a) && !EmptyString(a)
    {
      address
    }

    /** `getType`: a non-empty lower-case type. */
    function GetType(): (t: string)
      reads this
      ensures Valid() ==> t != [] && IsLowerCase(t)
    {
      proxyType
    }

    /** `getLogin`: when given, it holds no `:`. */
    function GetLogin(): (l: Option<string>)
      reads this
      ensures Valid() && !EmptyOpt(l) ==> ':' !in l.value
    {
      login
    }

    /** `getPassword`: given exactly when the login is. */
    function GetPassword(): (p: Option<string>)
      reads this
      ensures Valid() ==> EmptyOpt(p) == EmptyOpt(GetLogin())
    {
      password
    }

    /** `new ProxyDescriptor($address, $type, $login, $password)`: the object is
        allocated, the address is matched against the pattern, and the remaining checks
        store the fields; a rejection abandons the object and reports the error. */
    static method New(address: string, typeArg: Option<string>, loginArg: Option<string>,
                      passwordArg: Option<string>, supported: seq<string>)
      returns (r: Result<ProxyDescriptor, ProxyError>)
      ensures r.Failure? ==> Construct(address, typeArg, loginArg, passwordArg, supported) == Failure(r.error)
      ensures r.Success? ==> Construct(address, typeArg, loginArg, passwordArg, supported) == Success(r.value.Fields())
      ensures r.Success? ==> fresh(r.value) && r.value.Valid()
    {
      var d := new ProxyDescriptor.Blank();
      var m := MatchAddress(address).GetOr(NoMatch);
      r := d.Store(m, address, typeArg, loginArg, passwordArg, supported);
      ConstructValid(address, typeArg, loginArg, passwordArg, supported);
    }

    /** The constructor body after `preg_match`: the type, then the credentials and
        the address, each stored once its checks pass. */
    method Store(m: AddressMatch, address: string, typeArg: Option<string>, loginArg: Option<string>,
                 passwordArg: Option<string>, supported: seq<string>)
      returns (r: Result<ProxyDescriptor, ProxyError>)
      modifies this
      ensures r.Failure? ==> ConstructFrom(m, address, typeArg, loginArg, passwordArg, supported) == Failure(r.error)
      ensures r.Success? ==>
        r.value == this && ConstructFrom(m, address, typeArg, loginArg, passwordArg, supported) == Success(Fields())
    {
      var typeError := StoreType(m, typeArg, supported);
      if typeError.Some? {
        return Failure(typeError.value);
      }
      r := StoreCredentials(m, address, loginArg, passwordArg);
    }

    /** utils.php lines 66-83: the type argument is lowered and reconciled with the type group,
        defaults to `http`, must be supported, and is stored. */
    method StoreType(m: AddressMatch, typeArg: Option<string>, supported: seq<string>)
      returns (error: Option<ProxyError>)
      modifies this`proxyType
      ensures error.Some? ==> proxyType == old(proxyType)
      ensures var t := ResolveType(m.proxyType, typeArg);
        && (t.Failure? ==> error == Some(t.error))
        && (t.Success? && t.value !in supported ==> error == Some(UnsupportedType(t.value, supported)))
        && (t.Success? && t.value in supported ==> error == None && proxyType == t.value)
    {
      var proxyType := Lower(OptToString(typeArg));
      if !EmptyString(m.proxyType) {
        var matchedType := Lower(m.proxyType);
        if !EmptyString(proxyType) && matchedType != proxyType {
          return Some(TypeConflict);
        }
        proxyType := matchedType;
      }
      if EmptyString(proxyType) {
        proxyType := "http";
      }
      if proxyType !in supported {
        return Some(UnsupportedType(proxyType, supported));
      }
      this.proxyType := proxyType;
      error := None;
    }

    /** utils.php lines 85-111: login and password are reconciled with their groups, must come
        together and the login must have no `:`; they are stored, then the address group
        must be non-empty and is stored. */
    method StoreCredentials(m: AddressMatch, address: string, loginArg: Option<string>, passwordArg: Option<string>)
      returns (r: Result<ProxyDescriptor, ProxyError>)
      modifies this
      ensures proxyType == old(proxyType)
      ensures r.Failure? ==> ConstructWithType(m, address, proxyType, loginArg, passwordArg) == Failure(r.error)
      ensures r.Success? ==>
        r.value == this && ConstructWithType(m, address, proxyType, loginArg, passwordArg) == Success(Fields())
    {
      var login := loginArg;
      if !EmptyString(m.login) {
        if !EmptyOpt(login) && m.login != login.value {
          return Failure(LoginConflict);
        }
        login := Some(m.login);
      }
      var password := passwordArg;
      if !EmptyString(m.password) {
        if !EmptyOpt(password) && m.password != password.value {
          return Failure(PasswordConflict);
        }
        password := Some(m.password);
      }
      if EmptyOpt(login) != EmptyOpt(password) {
        return Failure(CredentialsIncomplete);
      }
      if !EmptyOpt(login) && ':' in login.value {
        return Failure(LoginHasColon);
      }
      this.login := login;
      this.password := password;

      if EmptyString(m.address) {
        return Failure(InvalidAddress(address));
      }
      this.address := m.address;
      r := Success(this);
    }
  }
}
