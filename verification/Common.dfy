/** Names shared by every component of the model. */
module Common {

  /** A UUID primary key; only its identity matters. */
  type Uuid = nat

  datatype Option<+T> = None | Some(value: T)

  datatype Result<+T, +E> = Ok(value: T) | Err(error: E)

  function Lookup<K, V>(m: map<K, V>, k: K): (r: Option<V>)
    ensures r.Some? <==> k in m
  {
    if k in m then Some(m[k]) else None
  }

  /** audit.DefaultUserID, recorded when no user is known or authentication is off. */
  const DEFAULT_USER := "cli-anonymous"

  /** unicode.IsSpace: the characters strings.TrimSpace strips. */
  predicate IsSpace(c: char) {
    || c == ' ' || '\t' <= c <= '\r'  // tab, line feed, vertical tab, form feed, carriage return
    || c == '\U{0085}' || c == '\U{00A0}' || c == '\U{1680}' || '\U{2000}' <= c <= '\U{200A}'
    || c == '\U{2028}' || c == '\U{2029}' || c == '\U{202F}' || c == '\U{205F}' || c == '\U{3000}'
  }

  /** strings.TrimSpace(s) == "": nothing but white space. */
  predicate Blank(s: string) {
    forall i :: 0 <= i < |s| ==> IsSpace(s[i])
  }
}
