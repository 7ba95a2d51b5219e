/** Credentials by generation: enrolling draws a new one, and a revoked one never comes back. */
module Credentials {

  /** The generation of every enrolled client, and all generations ever drawn. */
  datatype Holders = Holders(current: map<string, string>, drawn: set<string>)

  datatype Turn = Enrolled(client: string, generation: string) | Revoked(client: string) | Kept

  /** A client is enrolled once, under a generation never drawn before. */
  predicate Admits(s: Holders, turn: Turn) {
    match turn
    case Enrolled(client, generation) => client !in s.current && generation !in s.drawn
    case Revoked(client) => client in s.current
    case Kept => true
  }

  function Turned(s: Holders, turn: Turn): Holders {
    if !Admits(s, turn) then s
    else
      match turn
      case Enrolled(client, generation) => Holders(s.current[client := generation], s.drawn + {generation})
      case Revoked(client) => s.(current := s.current - {client})
      case Kept => s
  }

  function After(s: Holders, turns: seq<Turn>): Holders {
    if turns == [] then s else Turned(After(s, turns[..|turns| - 1]), turns[|turns| - 1])
  }

  predicate Current(s: Holders, client: string, generation: string) {
    client in s.current && s.current[client] == generation
  }

  predicate Sound(s: Holders) { forall c | c in s.current :: s.current[c] in s.drawn }

  /** A generation stays its client's present one exactly until the client is revoked. */
  lemma {:induction false} CurrentUntilRevoked(s: Holders, turns: seq<Turn>, client: string, generation: string)
    requires Sound(s) && Current(s, client, generation)
    ensures Current(After(s, turns), client, generation) <==> Revoked(client) !in turns
    ensures generation in After(s, turns).drawn
  {
    if turns != [] {
      var front := turns[..|turns| - 1];
      CurrentUntilRevoked(s, front, client, generation);
      assert turns == front + [turns[|turns| - 1]];
    }
  }

  lemma {:induction false} AfterSound(s: Holders, turns: seq<Turn>)
    requires Sound(s)
    ensures Sound(After(s, turns))
  {
    if turns != [] {
      AfterSound(s, turns[..|turns| - 1]);
    }
  }
}
