/** The callback-path and verification-token providers of lib/listener.js.

    The built-in providers encrypt a JSON value with a shared secret and
    encode the ciphertext as text. Here the cipher is a pair of functions,
    `seal` and `open`; everything said about the providers is said of an
    ideal cipher, one under which `open` undoes `seal`. */
module Codec {
  import opened Wrappers

  /** A symmetric cipher under one secret, over plaintexts of type `P`;
      `open` (which includes the percent-decoding of the text) answers `None`
      for text it cannot decode, decrypt or parse */
  datatype Cipher<!P> = Cipher(seal: P -> string, open: string -> Option<P>)

  /** Opening what was sealed gives it back */
  ghost predicate Ideal<P(!new)>(c: Cipher<P>) {
    forall p :: c.open(c.seal(p)) == Some(p)
  }

  // ---------------------------------------------------------------------
  // Callback paths

  /** The path provider's `create`: a slash, then the sealed memo */
  function PathCreate<P(!new)>(c: Cipher<P>, memo: P): (path: string)
    ensures |path| > 0 && path[0] == '/'
    ensures Ideal(c) ==> PathLookup(c, path) == Some(memo)
  {
    ['/'] + c.seal(memo)
  }

  /** The path provider's `lookup`: only paths with a leading slash are opened */
  function PathLookup<P>(c: Cipher<P>, path: string): (r: Option<P>)
    ensures r.Some? ==> |path| > 0 && path[0] == '/'
    ensures |path| > 0 && path[0] == '/' ==> r == c.open(path[1..])
  {
    if |path| > 0 && path[0] == '/' then c.open(path[1..]) else None
  }

  // ---------------------------------------------------------------------
  // Verification tokens

  /** The plaintext of a token: `{<action>: {topic, nonce}}` */
  datatype Grant = Grant(action: string, topic: string, nonce: string)

  /** `createToken`: seals the action and topic with a random nonce, which
      is a parameter here */
  function TokenCreate(c: Cipher<Grant>, action: string, topic: string, nonce: string): (token: string)
    ensures Ideal(c) ==> forall a, t :: TokenLookup(c, token, a, t) <==> a == action && t == topic && t != ""
  {
    c.seal(Grant(action, topic, nonce))
  }

  /** `parseToken`: the token opens to a grant for `action` whose topic is
      non-empty and equal to `topic`; the nonce is never looked at */
  function TokenLookup(c: Cipher<Grant>, token: string, action: string, topic: string): (valid: bool)
    ensures valid ==> topic != "" && c.open(token).Some?
    ensures forall nonce :: c.open(token) == Some(Grant(action, topic, nonce)) ==> (valid <==> topic != "")
    ensures forall a, t, nonce :: c.open(token) == Some(Grant(a, t, nonce)) && (a != action || t != topic) ==> !valid
  {
    match c.open(token)
    case Some(g) => g.action == action && g.topic != "" && g.topic == topic
    case None => false
  }
}
