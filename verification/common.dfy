/**
 * Types and helpers shared by every route of the booking application:
 * optional values, roles, the two kinds of identifier, HTTP replies,
 * string prefix/substring tests and order-keeping filtering.
 */
module Common {

  datatype Option<+T> = None | Some(value: T)

  /** The three roles a session token can carry (src/lib/auth.ts). */
  datatype Role = Customer | Provider | Admin

  /** The spelling of a role as stored and compared by the application. */
  function RoleName(r: Role): string
  {
    match r
    case Customer => "CUSTOMER"
    case Provider => "PROVIDER"
    case Admin => "ADMIN"
  }

  /** Identifier of a User row ("CU0001", "PR0002", ...). */
  datatype UserId = UserId(raw: string)

  /**
   * Identifier of a ProviderProfile row. A provider has both a user id and a
   * profile id; they are distinct strings and are kept distinct types here.
   */
  datatype ProfileId = ProfileId(raw: string)

  /** The verified payload of a session token: who is calling, in which role. */
  datatype Session = Session(userId: UserId, role: Role)

  /** A route's reply: a success body with its status, or an error status and message. */
  datatype Reply<+T> = Success(status: int, body: T) | Failure(status: int, message: string)

  /** JavaScript truthiness of an optional query or body string: present and non-empty. */
  predicate Present(s: Option<string>)
  {
    s.Some? && s.value != ""
  }

  /** `s.startsWith(prefix)`. */
  predicate StartsWith(s: string, prefix: string)
  {
    prefix <= s
  }

  /** `s.includes(sub)`: `sub` occurs at some position of `s`. */
  predicate Contains(s: string, sub: string)
    decreases |s|
  {
    StartsWith(s, sub) || (|s| > 0 && Contains(s[1..], sub))
  }

  lemma {:induction false} ContainsAt(s: string, sub: string, i: nat)
    requires i + |sub| <= |s| && s[i..i + |sub|] == sub
    ensures Contains(s, sub)
    decreases i
  {
    if i == 0 {
      assert s[..|sub|] == sub;
    } else {
      assert s[1..][i - 1..i - 1 + |sub|] == s[i..i + |sub|];
      ContainsAt(s[1..], sub, i - 1);
    }
  }

  /**
   * The elements of `s` that satisfy `p`, in their original order, as a
   * database `where` clause returns them.
   */
  function Filter<T(!new)>(s: seq<T>, p: T -> bool): (r: seq<T>)
    ensures |r| <= |s|
    ensures forall x :: x in r <==> x in s && p(x)
    ensures forall x :: multiset(r)[x] == if p(x) then multiset(s)[x] else 0
  {
    if |s| == 0 then []
    else
      var rest := Filter(s[1..], p);
      assert s == [s[0]] + s[1..];
      if p(s[0]) then [s[0]] + rest else rest
  }
}
