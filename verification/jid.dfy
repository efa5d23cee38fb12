/**
 * XMPP addresses (JIDs, section 2.1 of RFC 6120, format in RFC 7622): `local@domain[/resource]`.
 * Parsing and normalisation belong to the protocol library; a JID here is the
 * already-parsed triple. An empty `local` stands for a domain-only JID.
 */
module Jids {
  import opened Options

  datatype Jid = Jid(local: string, domain: string, resource: Option<string>)

  /** A bare JID is one without a resource. */
  predicate IsBare(j: Jid) {
    j.resource.None?
  }

  /** `BareJid::from(jid)`: forget the resource, keep local part and domain. */
  function Bare(j: Jid): (r: Jid)
    ensures IsBare(r)
    ensures r.local == j.local && r.domain == j.domain
    ensures IsBare(j) ==> r == j
  {
    Jid(j.local, j.domain, None)
  }

  /** `BareJid::with_resource(res)`: the full JID `local@domain/res`. */
  function WithResource(j: Jid, res: string): (r: Jid)
    requires IsBare(j)
    ensures r.local == j.local && r.domain == j.domain
    ensures r.resource == Some(res)
    ensures Bare(r) == j
  {
    Jid(j.local, j.domain, Some(res))
  }

  /** Stripping the resource is idempotent, and re-qualifying a bare JID only changes the resource. */
  lemma BareIdempotent(j: Jid, res: string)
    ensures Bare(Bare(j)) == Bare(j)
    ensures Bare(WithResource(Bare(j), res)) == Bare(j)
    ensures WithResource(Bare(j), res) == j.(resource := Some(res))
  {
  }
}
