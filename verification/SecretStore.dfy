/** The local secret store: which secrets have a file, and that the files hold their latest versions. */
module SecretStore {
  import opened Resources
  import opened Arbitration

  /** A client secret for OpenID Connect is never written to a file. */
  datatype SecretType = Tls | Ca | Jwk | Oidc

  datatype Secret = Secret(key: string, secretType: SecretType, data: string)

  /* ----- What the store should contain ----- */

  /** A reference: the latest version of the secret, the path of its file or none, and whether it is valid. */
  datatype Ref = Ref(secret: Secret, path: string, valid: bool)

  datatype State = State(refs: map<string, Ref>, files: map<string, Secret>)

  /** The path of a secret's file; it is never empty. */
  function PathOf(key: string): string {
    "/etc/nginx/secrets/" + key
  }

  /** What the file manager answers when it is told to write a secret. */
  function WrittenPath(secret: Secret): string {
    if secret.secretType.Oidc? then "" else PathOf(secret.key)
  }

  function WrittenFiles(files: map<string, Secret>, secret: Secret): map<string, Secret> {
    if secret.secretType.Oidc? then files else files[secret.key := secret]
  }

  datatype Event = Set(secret: Secret, valid: bool) | Remove(key: string) | Get(key: string)

  function Next(s: State, e: Event): State {
    match e
    case Set(secret, valid) =>
      var path := if secret.key in s.refs then s.refs[secret.key].path else "";
      if path == "" then s.(refs := s.refs[secret.key := Ref(secret, "", valid)])
      else if !valid then State(s.refs[secret.key := Ref(secret, "", valid)], s.files - {secret.key})
      else State(s.refs[secret.key := Ref(secret, WrittenPath(secret), valid)], WrittenFiles(s.files, secret))
    case Remove(k) =>
      if k !in s.refs then s
      else State(s.refs - {k}, if s.refs[k].path == "" then s.files else s.files - {k})
    case Get(k) =>
      if k !in s.refs || !s.refs[k].valid || s.refs[k].path != "" then s
      else
        var secret := s.refs[k].secret;
        State(s.refs[k := s.refs[k].(path := WrittenPath(secret))], WrittenFiles(s.files, secret))
  }

  lemma NextOfSet(s: State, secret: Secret, valid: bool)
    ensures var k := secret.key;
            var filed := k in s.refs && s.refs[k].path != "";
            Next(s, Set(secret, valid)) ==
            State(s.refs[k := Ref(secret, if filed && valid then WrittenPath(secret) else "", valid)],
                  if !filed then s.files else if valid then WrittenFiles(s.files, secret) else s.files - {k})
  {
  }

  /** A file exists for a key exactly when its reference has a path, and then the secret is valid and the file holds its
      latest version. */
  ghost predicate Consistent(s: State) {
    && (forall k :: k in s.refs ==> s.refs[k].secret.key == k)
    && (forall k :: k in s.files <==> k in s.refs && s.refs[k].path != "")
    && (forall k :: k in s.files ==> s.refs[k].valid && s.files[k] == s.refs[k].secret)
  }

  /** A secret whose file exists is replaced by a valid one that needs no file. */
  predicate LeavesFile(s: State, e: Event) {
    e.Set? && e.valid && e.secret.secretType.Oidc? && e.secret.key in s.refs && s.refs[e.secret.key].path != ""
  }

  /** Every operation keeps the store consistent, except exactly the update that turns a secret with a file into an
      OpenID Connect secret: its reference loses the path and the file stays. */
  lemma StepKeepsConsistentIff(s: State, e: Event)
    requires Consistent(s)
    ensures Consistent(Next(s, e)) <==> !LeavesFile(s, e)
  {
    hide Next;
    match e
    case Set(secret, valid) => SetKeepsConsistentIff(s, secret, valid);
    case Remove(k) => RemoveKeepsConsistent(s, k);
    case Get(k) => GetKeepsConsistent(s, k);
  }

  lemma SetKeepsConsistentIff(s: State, secret: Secret, valid: bool)
    requires Consistent(s)
    ensures Consistent(Next(s, Set(secret, valid))) <==> !LeavesFile(s, Set(secret, valid))
  {
    hide Next, PathOf;
    NextOfSet(s, secret, valid);
    PathIsNotEmpty(secret.key);
    if LeavesFile(s, Set(secret, valid)) {
      assert secret.key in s.files;
      assert secret.key in Next(s, Set(secret, valid)).files && Next(s, Set(secret, valid)).refs[secret.key].path == "";
    }
  }

  lemma PathIsNotEmpty(key: string)
    ensures PathOf(key) != ""
  {
  }

  lemma RemoveKeepsConsistent(s: State, k: string)
    requires Consistent(s)
    ensures Consistent(Next(s, Remove(k)))
  {
  }

  lemma GetKeepsConsistent(s: State, k: string)
    requires Consistent(s)
    ensures Consistent(Next(s, Get(k)))
  {
  }

  function Run(events: seq<Event>): State {
    if events == [] then State(map[], map[]) else Next(Run(Front(events)), Last(events))
  }

  ghost predicate NoFileLeft(events: seq<Event>) {
    events == [] || (NoFileLeft(Front(events)) && !LeavesFile(Run(Front(events)), Last(events)))
  }

  /** Over a run, files and references agree at every moment exactly when no secret with a file ever becomes an OpenID
      Connect secret. */
  lemma {:induction false} FilesFollowReferences(events: seq<Event>)
    ensures (forall n :: 0 <= n <= |events| ==> Consistent(Run(events[..n]))) <==> NoFileLeft(events)
  {
    hide Next, Consistent, LeavesFile;
    if events == [] {
      AtFirst();
    } else {
      var front := Front(events);
      FilesFollowReferences(front);
      assert forall n :: 0 <= n <= |front| ==> events[..n] == front[..n];
      assert front[..|front|] == front && events[..|events|] == events;
      if Consistent(Run(front)) {
        StepKeepsConsistentIff(Run(front), Last(events));
      }
    }
  }

  lemma AtFirst()
    ensures Consistent(Run([]))
  {
  }

  /** A secret with a file, deleted and created again as an OpenID Connect secret between two synchronisations. The type
      of a Kubernetes secret cannot be changed, but the store only sees the version there is when it looks. */
  function RecreatedAsOidc(key: string, data: string, newData: string): seq<Event> {
    [Set(Secret(key, Tls, data), true), Get(key), Set(Secret(key, Oidc, newData), true)]
  }

  /** The file of the old secret stays on disk, and deleting the new secret leaves it there. */
  lemma RecreatedLeavesFile(key: string, data: string, newData: string)
    ensures var events := RecreatedAsOidc(key, data, newData);
            && LeavesFile(Run(events[..2]), events[2])
            && Run(events).files == map[key := Secret(key, Tls, data)] && Run(events).refs[key].path == ""
            && Run(events + [Remove(key)]) == State(map[], map[key := Secret(key, Tls, data)])
  {
    hide PathOf;
    var events, ref := RecreatedAsOidc(key, data, newData), Ref(Secret(key, Tls, data), "", true);
    PathIsNotEmpty(key);
    assert events[..0] == [] && Front(events[..1]) == events[..0] && Front(events[..2]) == events[..1];
    assert Front(events) == events[..2] && Front(events + [Remove(key)]) == events;
    assert Run(events[..1]) == State(map[key := ref], map[]);
    assert Run(events[..2]) == State(map[key := ref.(path := PathOf(key))], map[key := ref.secret]);
    assert Run(events) == State(map[key := Ref(Secret(key, Oidc, newData), "", true)], map[key := ref.secret]);
  }

  /** In particular, files and references always agree if there are no OpenID Connect secrets. */
  lemma {:induction false} NoOidcNoFileLeft(events: seq<Event>)
    requires forall i :: 0 <= i < |events| ==> events[i].Set? ==> !events[i].secret.secretType.Oidc?
    ensures NoFileLeft(events)
  {
    if events != [] {
      assert forall i :: 0 <= i < |Front(events)| ==> Front(events)[i] == events[i];
      NoOidcNoFileLeft(Front(events));
    }
  }

  /* ----- What is stored and what has a file ----- */

  predicate Concerns(e: Event, k: string) {
    match e
    case Set(secret, _) => secret.key == k
    case Remove(key) => key == k
    case Get(_) => false
  }

  /** The last event that sets or removes the secret sets it so. */
  ghost predicate IsLatest(events: seq<Event>, k: string, secret: Secret, valid: bool) {
    exists i :: 0 <= i < |events| && events[i] == Set(secret, valid) && secret.key == k &&
      forall j :: i < j < |events| ==> !Concerns(events[j], k)
  }

  lemma LatestOfOneMore(events: seq<Event>, k: string, secret: Secret, valid: bool)
    requires events != []
    ensures IsLatest(events, k, secret, valid) <==>
            if Concerns(Last(events), k) then Last(events) == Set(secret, valid) && secret.key == k
            else IsLatest(Front(events), k, secret, valid)
  {
    var front, e := Front(events), Last(events);
    assert forall i :: 0 <= i < |front| ==> front[i] == events[i];
    assert events[|front|] == e;
  }

  /** After any events a reference has the newest version of its secret and the verdict on it. */
  lemma {:induction false} StoredIsLatest(events: seq<Event>, k: string, secret: Secret, valid: bool)
    ensures var refs := Run(events).refs;
            k in refs && refs[k].secret == secret && refs[k].valid == valid <==> IsLatest(events, k, secret, valid)
  {
    hide IsLatest, PathOf;
    if events != [] {
      StoredIsLatest(Front(events), k, secret, valid);
      LatestOfOneMore(events, k, secret, valid);
      RefAfter(Run(Front(events)), Last(events), k);
    } else {
      NothingLatest(k, secret, valid);
    }
  }

  lemma NothingLatest(k: string, secret: Secret, valid: bool)
    ensures !IsLatest([], k, secret, valid)
  {
  }

  lemma RefAfter(s: State, e: Event, k: string)
    ensures var refs, refs' := s.refs, Next(s, e).refs;
            match e
            case Set(secret, valid) =>
              if secret.key == k then k in refs' && refs'[k].secret == secret && refs'[k].valid == valid
              else (k in refs' <==> k in refs) && (k in refs ==> refs'[k] == refs[k])
            case Remove(key) =>
              if key == k then k !in refs' else (k in refs' <==> k in refs) && (k in refs ==> refs'[k] == refs[k])
            case Get(_) =>
              (k in refs' <==> k in refs) &&
              (k in refs ==> refs'[k].secret == refs[k].secret && refs'[k].valid == refs[k].valid)
  {
    hide PathOf;
  }

  /** The secret was asked for while it was valid, and has been neither removed nor replaced by an invalid version
      since. */
  ghost predicate InUse(events: seq<Event>, k: string) {
    exists i :: 0 <= i < |events| && events[i] == Get(k) && (exists secret :: IsLatest(events[..i], k, secret, true)) &&
      forall j :: i < j < |events| ==> !Ends(events[j], k)
  }

  predicate Ends(e: Event, k: string) {
    match e
    case Set(secret, valid) => secret.key == k && !valid
    case Remove(key) => key == k
    case Get(_) => false
  }

  lemma InUseOfOneMore(events: seq<Event>, k: string)
    requires events != []
    ensures InUse(events, k) <==>
            || (InUse(Front(events), k) && !Ends(Last(events), k))
            || (Last(events) == Get(k) && exists secret :: IsLatest(Front(events), k, secret, true))
  {
    hide IsLatest, Ends;
    var front, e := Front(events), Last(events);
    assert forall i :: 0 <= i < |front| ==> front[i] == events[i] && front[..i] == events[..i];
    assert events[|front|] == e && events[..|front|] == front;
    if InUse(events, k) {
      var i :| 0 <= i < |events| && events[i] == Get(k) && (exists secret :: IsLatest(events[..i], k, secret, true)) &&
        forall j :: i < j < |events| ==> !Ends(events[j], k);
      assert i < |front| ==> !Ends(events[|front|], k);
      assert i < |front| ==> forall j :: i < j < |front| ==> !Ends(front[j], k);
    }
    if InUse(front, k) && !Ends(e, k) {
      var i :| 0 <= i < |front| && front[i] == Get(k) && (exists secret :: IsLatest(front[..i], k, secret, true)) &&
        forall j :: i < j < |front| ==> !Ends(front[j], k);
      assert forall j :: i < j < |events| ==> !Ends(events[j], k);
    }
  }

  /** If there are no OpenID Connect secrets, then at every moment exactly the secrets in use have a file, and it holds
      their newest version. */
  lemma {:induction false} FilesAreInUse(events: seq<Event>, k: string)
    requires forall i :: 0 <= i < |events| ==> events[i].Set? ==> !events[i].secret.secretType.Oidc?
    ensures var s := Run(events);
            && (k in s.files <==> InUse(events, k))
            && (k in s.files ==> IsLatest(events, k, s.files[k], true))
  {
    hide IsLatest, InUse, Next, Consistent;
    NoOidcNoFileLeft(events);
    FilesFollowReferences(events);
    assert events[..|events|] == events;
    var s := Run(events);
    ConsistentAt(s, k);
    if k in s.files {
      StoredIsLatest(events, k, s.refs[k].secret, true);
    }
    if events == [] {
      NothingInUse(k);
    } else {
      var before, e := Run(Front(events)), Last(events);
      assert forall i :: 0 <= i < |Front(events)| ==> Front(events)[i] == events[i];
      FilesAreInUse(Front(events), k);
      InUseOfOneMore(events, k);
      NoOidcNoFileLeft(Front(events));
      FilesFollowReferences(Front(events));
      assert Front(events)[..|Front(events)|] == Front(events);
      if k in before.refs {
        StoredIsLatest(Front(events), k, before.refs[k].secret, before.refs[k].valid);
        LatestWasSet(Front(events), k, before.refs[k].secret, before.refs[k].valid);
      }
      FileAfter(before, e, k);
      forall secret
        ensures IsLatest(Front(events), k, secret, true) ==> k in before.refs && before.refs[k].valid
      {
        StoredIsLatest(Front(events), k, secret, true);
      }
    }
  }

  lemma LatestWasSet(events: seq<Event>, k: string, secret: Secret, valid: bool)
    requires IsLatest(events, k, secret, valid)
    ensures exists i :: 0 <= i < |events| && events[i] == Set(secret, valid)
  {
  }

  lemma NothingInUse(k: string)
    ensures !InUse([], k)
  {
  }

  lemma ConsistentAt(s: State, k: string)
    requires Consistent(s)
    ensures k in s.files ==> k in s.refs && s.refs[k].valid && s.files[k] == s.refs[k].secret
  {
  }

  /** Which event gives a secret a file, and which takes it away. */
  lemma FileAfter(s: State, e: Event, k: string)
    requires Consistent(s) && (e.Set? ==> !e.secret.secretType.Oidc?)
    requires k in s.refs ==> !s.refs[k].secret.secretType.Oidc?
    ensures k in Next(s, e).files <==>
            || (k in s.files && !Ends(e, k))
            || (e == Get(k) && k in s.refs && s.refs[k].valid)
  {
    PathIsNotEmpty(k);
    hide PathOf;
  }

  /* ----- The store ----- */

  class SecretReference {
    var secret: Secret
    var path: string
    var valid: bool

    constructor (secret: Secret)
      ensures this.secret == secret && path == "" && !valid
    {
      this.secret := secret;
      path, valid := "", false;
    }

    function AsRef(): Ref
      reads this
    {
      Ref(secret, path, valid)
    }
  }

  class LocalSecretStore {
    var secrets: map<string, SecretReference>
    /** What the file manager has on disk, by key. */
    var files: map<string, Secret>

    constructor ()
      ensures Valid() && Abstract() == State(map[], map[])
    {
      secrets, files := map[], map[];
    }

    /** Each key has a reference of its own. */
    ghost predicate Valid()
      reads this
    {
      forall k1, k2 :: k1 in secrets && k2 in secrets && k1 != k2 ==> secrets[k1] != secrets[k2]
    }

    ghost function Abstract(): State
      reads this, secrets.Values
    {
      State(map k | k in secrets :: secrets[k].AsRef(), files)
    }

    /** Writes a secret to its file and returns the path. */
    method WriteSecret(secret: Secret) returns (path: string)
      modifies `files
      ensures path == WrittenPath(secret) && files == WrittenFiles(old(files), secret)
    {
      match secret.secretType
      case Oidc => path := "";
      case _ =>
        files := files[secret.key := secret];
        path := PathOf(secret.key);
    }

    /** Brings the file of a reference up to date: it is removed if the secret is no longer valid, and else written
        again. */
    method UpdateFile(key: string)
      requires Valid() && key in secrets && secrets[key].secret.key == key
      modifies `files, {secrets[key]}`path
      ensures var r := old(Abstract()).refs[key];
              var path := if r.path != "" && r.valid then WrittenPath(r.secret) else "";
              Abstract() ==
              State(old(Abstract()).refs[key := r.(path := path)],
                    if r.path == "" then old(files) else if r.valid then WrittenFiles(old(files), r.secret)
                                                         else old(files) - {key})
    {
      hide WrittenFiles, WrittenPath;
      var ref := secrets[key];
      if ref.path != "" {
        if !ref.valid {
          files := files - {key};
          ref.path := "";
        } else {
          var path := WriteSecret(ref.secret);
          ref.path := path;
        }
      }
    }

    /** Puts a secret under its reference, or under a new one. */
    method PutSecret(secret: Secret, valid: bool) returns (ref: SecretReference)
      requires Valid()
      modifies `secrets, secrets.Values
      ensures Valid() && secret.key in secrets && ref == secrets[secret.key] && files == old(files)
      ensures ref.secret == secret && (fresh(ref) || ref in old(secrets.Values))
      ensures var was := old(Abstract());
              Abstract().refs == was.refs[secret.key := Ref(secret,
                                                            if secret.key in was.refs then was.refs[secret.key].path
                                                            else "", valid)]
    {
      if secret.key !in secrets {
        ref := new SecretReference(secret);
        ref.valid := valid;
        secrets := secrets[secret.key := ref];
      } else {
        ref := secrets[secret.key];
        ref.secret, ref.valid := secret, valid;
      }
    }

    /** `valid` is the verdict of the validator on the secret. */
    method AddOrUpdateSecret(secret: Secret, valid: bool)
      requires Valid()
      modifies this, secrets.Values
      ensures Valid() && Abstract() == Next(old(Abstract()), Set(secret, valid))
    {
      hide Next, WrittenFiles, WrittenPath;
      NextOfSet(Abstract(), secret, valid);
      var ref := PutSecret(secret, valid);
      UpdateFile(secret.key);
    }

    method DeleteSecret(key: string)
      requires Valid()
      modifies this
      ensures Valid() && Abstract() == Next(old(Abstract()), Remove(key))
    {
      if key !in secrets {
        return;
      }
      var stored := secrets[key];
      secrets := secrets - {key};
      if stored.path == "" {
        return;
      }
      files := files - {key};
    }

    /** The reference to a secret, with a file if the secret is valid and needs one; none if it is not stored. */
    method GetSecret(key: string) returns (ref: Option<SecretReference>)
      requires Valid()
      modifies this, secrets.Values
      ensures Valid() && Abstract() == Next(old(Abstract()), Get(key))
      ensures ref.Some? <==> key in old(secrets)
      ensures ref.Some? ==> ref.value.AsRef() == Abstract().refs[key]
    {
      if key !in secrets {
        return None;
      }
      var stored := secrets[key];
      if stored.valid && stored.path == "" {
        var path := WriteSecret(stored.secret);
        stored.path := path;
      }
      ref := Some(stored);
    }
  }
}
