/** What both sides of an assistance pairing share: identities, retained authority and proofs. */
module Authorities {
  datatype Identity = Identity(application: string, workspace: string, supplier: string, generation: string)

  /** What retained authority was issued for. */
  datatype Place = Place(application: string, workspace: string, supplier: string, scope: string)

  /** Retained authority; secrets are opaque and unguessable. */
  datatype Authority = Authority(place: Place, consumer: string, expires: int, secret: int)

  /** An HMAC over its arguments, as an opaque term. */
  datatype Proof = Proof(secret: int, direction: string, identity: Identity, consumer: string, nonce: string)
}
