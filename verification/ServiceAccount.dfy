/** Whose token it is (internal/auth/oidc.go, kubernetesServiceAccountIdentity). */
module ServiceAccount {
  import opened Basics
  import opened Strings

  datatype Claims = Claims(subject: string, namespace: string, account: string)
  datatype Identity = Identity(namespace: string, account: string)

  function Prefix(): string { "system:serviceaccount:" }

  function IdentityOf(c: Claims): Option<Identity> {
    if c.subject == "" || !(Prefix() <= c.subject) then None
    else
      var parts := Split(c.subject[|Prefix()|..], ':');
      if |parts| != 2 || parts[0] == "" || parts[1] == "" then None
      else if c.namespace != parts[0] || c.account != parts[1] then None
      else Some(Identity(parts[0], parts[1]))
  }

  // The subject of a service account, as Kubernetes writes it.
  function Subject(id: Identity): string { "system:serviceaccount:" + id.namespace + ":" + id.account }

  ghost predicate Named(id: Identity) {
    id.namespace != "" && id.account != "" && ':' !in id.namespace && ':' !in id.account
  }

  lemma TwoParts(s: string)
    requires |Split(s, ':')| == 2
    ensures var p := Split(s, ':'); s == p[0] + [':'] + p[1] && ':' !in p[0] && ':' !in p[1]
  {
    var k := IndexOf(s, ':');
    var rest := s[k + 1..];
    assert Split(s, ':') == [s[..k]] + Split(rest, ':');
    assert IndexOf(rest, ':') == |rest|;
  }

  lemma AfterPrefix(p: string, s: string, tail: string)
    ensures p <= s && s[|p|..] == tail <==> s == p + tail
  {
    if p <= s && s[|p|..] == tail { assert s == s[..|p|] + s[|p|..]; }
  }

  lemma SubjectIs(id: Identity)
    ensures Subject(id) == Prefix() + (id.namespace + [':'] + id.account)
  {
  }

  // An identity is accepted if and only if the subject is exactly its subject and
  // both Kubernetes claims agree with it; so a subject has one identity.
  lemma IdentityIff(c: Claims, id: Identity)
    ensures IdentityOf(c) == Some(id) <==>
            Named(id) && c == Claims(Subject(id), id.namespace, id.account)
  {
    SubjectIs(id);
    hide Prefix, Split, Subject;
    var p, tail := Prefix(), id.namespace + [':'] + id.account;
    AfterPrefix(p, c.subject, tail);
    if Named(id) { SplitTwo(id.namespace, id.account, ':'); }
    if IdentityOf(c) == Some(id) { TwoParts(c.subject[|p|..]); }
  }
}
