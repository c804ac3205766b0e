/**
 Envelope encryption over ideal crypto: a wrapped key per tenant, secrets sealed under
 it, and crypto-shred by destroying the key.
 A key is a number; keys are fresh.  A ciphertext opens only under its own key, nonce
 and associated data, and an integrity tag only verifies what it was made for.
 */
module Seal {
  import opened Wrappers
  import opened Strings
  import Base64Url

  type Bytes = seq<Base64Url.byte>

  /** A key wrapped by the HSM, and an AES-GCM ciphertext. */
  datatype Wrapped = Wrapped(key: nat)
  datatype Cipher = Cipher(key: nat, iv: nat, aad: string, plaintext: Bytes)
  datatype Tag = DekTag(tenant: string, wrapped: Wrapped) | SecretTag(tenant: string, cipher: Cipher)

  datatype DekRow = DekRow(wrapped: Wrapped, tag: Tag)
  datatype SecretRow = SecretRow(iv: nat, cipher: Cipher, tag: Tag)

  datatype Slot = Slot(tenant: string, name: string)

  /** `tenant_deks`, `encrypted_secrets`, and how many keys were ever drawn. */
  datatype Vault = Vault(deks: map<string, DekRow>, secrets: map<Slot, SecretRow>, keysMade: nat)

  datatype Error = ValueError | NoDek | NoSecret | IntegrityError | InvalidTag

  /** `_aad_for_secret` */
  function Aad(s: Slot): string {
    "vargate.telemetry/secret/" + s.tenant + "/" + s.name
  }

  function Open(key: nat, iv: nat, c: Cipher, aad: string): Option<Bytes> {
    if c.key == key && c.iv == iv && c.aad == aad then Some(c.plaintext) else None
  }

  function DekOf(v: Vault, tenant: string): Result<nat, Error> {
    if tenant !in v.deks then Failure(NoDek)
    else if v.deks[tenant].tag != DekTag(tenant, v.deks[tenant].wrapped) then Failure(IntegrityError)
    else Success(v.deks[tenant].wrapped.key)
  }

  /** `get_tenant_dek` */
  function GetDek(v: Vault, tenant: string): Result<nat, Error> {
    if tenant == "" then Failure(ValueError) else DekOf(v, tenant)
  }

  function Provision(v: Vault, tenant: string): Vault {
    if tenant == "" || tenant in v.deks then v
    else
      var w := Wrapped(v.keysMade);
      v.(deks := v.deks[tenant := DekRow(w, DekTag(tenant, w))], keysMade := v.keysMade + 1)
  }

  function Destroy(v: Vault, tenant: string): Vault {
    v.(deks := v.deks - {tenant})
  }

  function SealSecret(v: Vault, s: Slot, plaintext: Bytes, iv: nat): Result<Vault, Error> {
    if s.tenant == "" || s.name == "" then Failure(ValueError)
    else
      match DekOf(v, s.tenant)
      case Failure(e) => Failure(e)
      case Success(key) =>
        var c := Cipher(key, iv, Aad(s), plaintext);
        Success(v.(secrets := v.secrets[s := SecretRow(iv, c, SecretTag(s.tenant, c))]))
  }

  function Unseal(v: Vault, s: Slot): Result<Bytes, Error> {
    if s.tenant == "" || s.name == "" then Failure(ValueError)
    else
      match DekOf(v, s.tenant)
      case Failure(e) => Failure(e)
      case Success(key) =>
        if s !in v.secrets then Failure(NoSecret)
        else if v.secrets[s].tag != SecretTag(s.tenant, v.secrets[s].cipher) then Failure(IntegrityError)
        else
          match Open(key, v.secrets[s].iv, v.secrets[s].cipher, Aad(s))
          case None => Failure(InvalidTag)
          case Some(plaintext) => Success(plaintext)
  }

  // ---- Runs, and what the history dictates ----

  datatype Action =
    | ProvisionKey(tenant: string)
    | DestroyKey(tenant: string)
    | SealIt(slot: Slot, plaintext: Bytes, iv: nat)

  const EMPTY := Vault(map[], map[], 0)

  function Step(v: Vault, a: Action): Vault {
    match a
    case ProvisionKey(tenant) => Provision(v, tenant)
    case DestroyKey(tenant) => Destroy(v, tenant)
    case SealIt(slot, plaintext, iv) =>
      match SealSecret(v, slot, plaintext, iv) case Success(after) => after case Failure(_) => v
  }

  function RunFrom(v: Vault, actions: seq<Action>): Vault {
    if actions == [] then v else Step(RunFrom(v, actions[..|actions| - 1]), actions[|actions| - 1])
  }

  function Run(actions: seq<Action>): Vault {
    RunFrom(EMPTY, actions)
  }

  /** The tenant has a key: it was provisioned after its last shred. */
  predicate Keyed(actions: seq<Action>, tenant: string) {
    if actions == [] then false
    else
      match actions[|actions| - 1]
      case ProvisionKey(t) => (t == tenant && t != "") || Keyed(actions[..|actions| - 1], tenant)
      case DestroyKey(t) => t != tenant && Keyed(actions[..|actions| - 1], tenant)
      case SealIt(_, _, _) => Keyed(actions[..|actions| - 1], tenant)
  }

  datatype Sealed = Sealed(plaintext: Bytes, shredded: bool)

  /** What was last sealed in a slot, and whether the tenant was shredded since. */
  function LastSealed(actions: seq<Action>, s: Slot): Option<Sealed> {
    if actions == [] then None
    else
      var before := LastSealed(actions[..|actions| - 1], s);
      match actions[|actions| - 1]
      case ProvisionKey(_) => before
      case DestroyKey(t) => if t == s.tenant && before.Some? then Some(before.value.(shredded := true)) else before
      case SealIt(slot, plaintext, _) =>
        if slot == s && s.name != "" && Keyed(actions[..|actions| - 1], s.tenant)
        then Some(Sealed(plaintext, false)) else before
  }

  function Expected(actions: seq<Action>, s: Slot): Result<Bytes, Error> {
    if s.tenant == "" || s.name == "" then Failure(ValueError)
    else if !Keyed(actions, s.tenant) then Failure(NoDek)
    else
      match LastSealed(actions, s)
      case None => Failure(NoSecret)
      case Some(x) => if x.shredded then Failure(InvalidTag) else Success(x.plaintext)
  }

  // ---- The invariant ----

  predicate GoodDek(v: Vault, tenant: string)
    requires tenant in v.deks
  {
    var r := v.deks[tenant];
    tenant != "" && r.tag == DekTag(tenant, r.wrapped) && r.wrapped.key < v.keysMade
  }

  ghost predicate DeksOk(v: Vault) {
    && (forall t :: t in v.deks ==> GoodDek(v, t))
    && (forall t, u :: t in v.deks && u in v.deks && v.deks[t].wrapped == v.deks[u].wrapped ==> t == u)
  }

  predicate GoodSecret(v: Vault, s: Slot, x: Sealed)
    requires s in v.secrets
  {
    var r := v.secrets[s];
    && r.tag == SecretTag(s.tenant, r.cipher) && r.cipher == Cipher(r.cipher.key, r.iv, Aad(s), x.plaintext)
    && r.cipher.key < v.keysMade
    && (s.tenant in v.deks ==> (x.shredded <==> v.deks[s.tenant].wrapped.key != r.cipher.key))
    && (!x.shredded ==> s.tenant in v.deks)
  }

  ghost predicate SecretsOk(v: Vault, actions: seq<Action>) {
    forall s :: (s in v.secrets <==> LastSealed(actions, s).Some?)
                && (s in v.secrets ==> GoodSecret(v, s, LastSealed(actions, s).value))
  }

  ghost predicate Inv(v: Vault, actions: seq<Action>) {
    DeksOk(v) && SecretsOk(v, actions) && forall t :: t in v.deks <==> Keyed(actions, t)
  }

  lemma StepKeepsSecrets(actions: seq<Action>, a: Action, s: Slot)
    requires Inv(Run(actions), actions)
    ensures var v := Step(Run(actions), a);
            && (s in v.secrets <==> LastSealed(actions + [a], s).Some?)
            && (s in v.secrets ==> GoodSecret(v, s, LastSealed(actions + [a], s).value))
  {
    assert (actions + [a])[..|actions|] == actions;
    var v := Run(actions);
    assert s in v.secrets ==> GoodSecret(v, s, LastSealed(actions, s).value);
    assert s.tenant in v.deks ==> GoodDek(v, s.tenant);
  }

  lemma StepKeepsDeks(v: Vault, a: Action)
    requires DeksOk(v)
    ensures DeksOk(Step(v, a)) && v.keysMade <= Step(v, a).keysMade
  {
    var w := Step(v, a);
    forall t | t in w.deks ensures GoodDek(w, t) {
      assert t in v.deks ==> GoodDek(v, t);
    }
    forall t, u | t in w.deks && u in w.deks && w.deks[t].wrapped == w.deks[u].wrapped ensures t == u {
      assert t in v.deks ==> GoodDek(v, t);
      assert u in v.deks ==> GoodDek(v, u);
    }
  }

  lemma StepKeepsKeyed(actions: seq<Action>, a: Action)
    requires Inv(Run(actions), actions)
    ensures forall t :: t in Step(Run(actions), a).deks <==> Keyed(actions + [a], t)
  {
    assert (actions + [a])[..|actions|] == actions;
  }

  lemma RunMore(actions: seq<Action>, a: Action)
    ensures Run(actions + [a]) == Step(Run(actions), a)
  {
    assert (actions + [a])[..|actions|] == actions;
  }

  lemma {:induction false} RunKeepsInv(actions: seq<Action>)
    ensures Inv(Run(actions), actions)
  {
    if actions != [] {
      var init, a := actions[..|actions| - 1], actions[|actions| - 1];
      assert actions == init + [a];
      RunKeepsInv(init);
      RunMore(init, a);
      StepKeepsDeks(Run(init), a);
      StepKeepsKeyed(init, a);
      forall s ensures (s in Run(actions).secrets <==> LastSealed(actions, s).Some?)
                       && (s in Run(actions).secrets ==> GoodSecret(Run(actions), s, LastSealed(actions, s).value))
      {
        StepKeepsSecrets(init, a, s);
      }
    }
  }

  /** Every unseal, after any run, gives what the history dictates: the plaintext last sealed
      for this tenant and name, unless the tenant was shredded since or never had it. */
  lemma UnsealFromHistory(actions: seq<Action>, s: Slot)
    ensures Unseal(Run(actions), s) == Expected(actions, s)
  {
    RunKeepsInv(actions);
    var v := Run(actions);
    if s.tenant in v.deks {
      assert GoodDek(v, s.tenant);
    }
    if s in v.secrets {
      assert GoodSecret(v, s, LastSealed(actions, s).value);
    }
  }

  /** A key is handed out exactly to a tenant provisioned after its last shred. */
  lemma DekFromHistory(actions: seq<Action>, tenant: string)
    ensures GetDek(Run(actions), tenant).Success? <==> Keyed(actions, tenant)
    ensures GetDek(Run(actions), tenant) == Failure(ValueError) <==> tenant == ""
    ensures tenant != "" && !Keyed(actions, tenant) ==> GetDek(Run(actions), tenant) == Failure(NoDek)
  {
    RunKeepsInv(actions);
    if tenant in Run(actions).deks {
      assert GoodDek(Run(actions), tenant);
    }
  }

  // ---- Crypto-shred is terminal ----

  ghost predicate KeyGone(v: Vault, key: nat) {
    key < v.keysMade && forall t :: t in v.deks ==> v.deks[t].wrapped.key != key
  }

  lemma {:induction false} KeyStaysGone(v: Vault, key: nat, actions: seq<Action>)
    requires KeyGone(v, key)
    ensures KeyGone(RunFrom(v, actions), key)
  {
    if actions != [] {
      KeyStaysGone(v, key, actions[..|actions| - 1]);
    }
  }

  /** After a shred, no key held for any tenant, ever again, opens a ciphertext made under the
      destroyed key, wherever a copy of it is kept; re-provisioning does not help. */
  lemma ShredIsTerminal(before: seq<Action>, tenant: string, after: seq<Action>, c: Cipher, t: string, iv: nat,
                        aad: string)
    requires tenant in Run(before).deks && c.key == Run(before).deks[tenant].wrapped.key
    ensures var v := RunFrom(Destroy(Run(before), tenant), after);
            t in v.deks ==> Open(v.deks[t].wrapped.key, iv, c, aad) == None
  {
    RunKeepsInv(before);
    var v := Run(before);
    assert GoodDek(v, tenant);
    assert KeyGone(Destroy(v, tenant), c.key);
    KeyStaysGone(Destroy(v, tenant), c.key, after);
  }

  /** Whatever key the tenant holds, it was drawn when `n` others had been. */
  predicate DrawnSince(v: Vault, tenant: string, n: nat) {
    n <= v.keysMade && (tenant in v.deks ==> n <= v.deks[tenant].wrapped.key)
  }

  lemma StepKeepsDrawnSince(v: Vault, a: Action, tenant: string, n: nat)
    requires DrawnSince(v, tenant, n)
    ensures DrawnSince(Step(v, a), tenant, n)
  {
  }

  // ---- Rows out of place ----

  lemma AadNamesTheSecret(tenant: string, m: string, n: string)
    ensures Aad(Slot(tenant, m)) == Aad(Slot(tenant, n)) ==> m == n
  {
    var p := "vargate.telemetry/secret/" + tenant + "/";
    assert Aad(Slot(tenant, m)) == p + m && Aad(Slot(tenant, n)) == p + n;
    assert (p + m)[|p|..] == m && (p + n)[|p|..] == n;
  }

  /** A secret row moved to another tenant, or renamed, never opens. */
  lemma MovedSecretIsRejected(actions: seq<Action>, s: Slot, t: Slot)
    requires s in Run(actions).secrets && s != t
    ensures var v := Run(actions);
            var moved := Unseal(v.(secrets := v.secrets[t := v.secrets[s]]), t);
            && moved.Failure?
            && (t.name != "" && GetDek(v, t.tenant).Success? ==>
                  moved.error == if s.tenant != t.tenant then IntegrityError else InvalidTag)
  {
    RunKeepsInv(actions);
    assert GoodSecret(Run(actions), s, LastSealed(actions, s).value);
    if s.tenant == t.tenant {
      AadNamesTheSecret(s.tenant, s.name, t.name);
    }
  }

  /** A secret row whose nonce is not the one it was sealed with never opens. */
  lemma AlteredNonceIsRejected(actions: seq<Action>, s: Slot, iv: nat)
    requires s in Run(actions).secrets && iv != Run(actions).secrets[s].iv
    ensures var v := Run(actions);
            Unseal(v.(secrets := v.secrets[s := v.secrets[s].(iv := iv)]), s).Failure?
  {
    RunKeepsInv(actions);
    assert GoodSecret(Run(actions), s, LastSealed(actions, s).value);
  }

  /** A key row moved to another tenant is refused before it is unwrapped. */
  lemma MovedDekIsRejected(actions: seq<Action>, t: string, u: string)
    requires t in Run(actions).deks && t != u
    ensures var v := Run(actions);
            var w := v.(deks := v.deks[u := v.deks[t]]);
            DekOf(w, u) == Failure(IntegrityError)
  {
    RunKeepsInv(actions);
    assert GoodDek(Run(actions), t);
  }

  // ---- The vault ----

  class SecretVault {
    var deks: map<string, DekRow>
    var secrets: map<Slot, SecretRow>
    var keysMade: nat

    function State(): Vault
      reads this
    {
      Vault(deks, secrets, keysMade)
    }

    constructor ()
      ensures State() == EMPTY
    {
      deks, secrets, keysMade := map[], map[], 0;
    }

    /** `provision_tenant_dek`: idempotent. */
    method ProvisionTenantDek(tenant: string) returns (r: Result<(), Error>)
      modifies this
      ensures r == if tenant == "" then Failure(ValueError) else Success(())
      ensures State() == Step(old(State()), ProvisionKey(tenant))
    {
      if tenant == "" {
        return Failure(ValueError);
      }
      if tenant in deks {
        return Success(());
      }
      var wrapped := Wrapped(keysMade);
      keysMade := keysMade + 1;
      deks := deks[tenant := DekRow(wrapped, DekTag(tenant, wrapped))];
      return Success(());
    }

    /** `destroy_tenant_dek` */
    method DestroyTenantDek(tenant: string) returns (r: Result<bool, Error>)
      modifies this
      ensures r == if tenant == "" then Failure(ValueError) else Success(tenant in old(deks))
      ensures tenant != "" ==> State() == Step(old(State()), DestroyKey(tenant))
      ensures tenant == "" ==> State() == old(State())
    {
      if tenant == "" {
        return Failure(ValueError);
      }
      if tenant !in deks {
        assert deks - {tenant} == deks;
        return Success(false);
      }
      deks := deks - {tenant};
      return Success(true);
    }

    /** `seal_secret` */
    method SealUnderDek(s: Slot, plaintext: Bytes, iv: nat) returns (r: Result<(), Error>)
      modifies this
      ensures State() == Step(old(State()), SealIt(s, plaintext, iv))
      ensures r.Success? <==> SealSecret(old(State()), s, plaintext, iv).Success?
      ensures r.Failure? ==> r.error == SealSecret(old(State()), s, plaintext, iv).error
      ensures r == Failure(ValueError) <==> s.tenant == "" || s.name == ""
      ensures r == Failure(NoDek) <==> s.tenant != "" && s.name != "" && s.tenant !in deks
      ensures r.Success? ==> secrets == old(secrets)[s := secrets[s]] && secrets[s].cipher.plaintext == plaintext
      ensures r.Failure? ==> State() == old(State())
    {
      if s.tenant == "" || s.name == "" {
        return Failure(ValueError);
      }
      var dek := DekOf(State(), s.tenant);
      if dek.Failure? {
        return Failure(dek.error);
      }
      var cipher := Cipher(dek.value, iv, Aad(s), plaintext);
      var tag := SecretTag(s.tenant, cipher);
      if s in secrets {
        secrets := secrets[s := secrets[s].(iv := iv, cipher := cipher, tag := tag)];
      } else {
        secrets := secrets[s := SecretRow(iv, cipher, tag)];
      }
      return Success(());
    }
  }
}
