/**
 * Device resolution: the push tokens of a meeting's participants, looked up
 * one participant at a time in the `users` collection.
 *
 * `users` holds what each lookup returns; an id whose lookup fails (no such
 * user, or the store does not answer) is absent from it.
 */
module DeviceResolver {
  import opened Types

  /** The user a lookup of `id` leaves behind: the stored one, or the empty user on failure. */
  function Lookup(users: map<ObjectId, User>, id: ObjectId): User
  {
    if id in users then users[id] else EmptyUser
  }

  /** The tokens of a device list, one per device, in device order. */
  function DeviceTokens(ds: seq<Device>): (r: seq<string>)
    ensures |r| == |ds|
    ensures forall k | 0 <= k < |ds| :: r[k] == ds[k].token
  {
    if ds == [] then [] else DeviceTokens(ds[..|ds| - 1]) + [ds[|ds| - 1].token]
  }

  /** The tokens of the participants `ps`, in participant order and then device order. */
  function Tokens(users: map<ObjectId, User>, ps: seq<ObjectId>): seq<string>
  {
    if ps == [] then []
    else Tokens(users, ps[..|ps| - 1]) + DeviceTokens(Lookup(users, ps[|ps| - 1]).devices)
  }

  /** How many devices the resolvable participants among `ps` have, counted per occurrence. */
  function DeviceCount(users: map<ObjectId, User>, ps: seq<ObjectId>): nat
  {
    if ps == [] then 0
    else (if ps[0] in users then |users[ps[0]].devices| else 0) + DeviceCount(users, ps[1..])
  }

  /**
   * `devices(meeting)`: appends, for each participant in turn, the token of
   * each of its devices. A failed lookup leaves the empty user, whose device
   * list is empty.
   */
  method Devices(m: Meeting, users: map<ObjectId, User>) returns (tokens: seq<string>)
    ensures tokens == Tokens(users, m.participants)
  {
    tokens := [];
    var i := 0;
    while i < |m.participants|
      invariant 0 <= i <= |m.participants|
      invariant tokens == Tokens(users, m.participants[..i])
    {
      var participant := m.participants[i];
      var user := EmptyUser;
      if participant in users {
        user := users[participant];
      }
      var j := 0;
      while j < |user.devices|
        invariant 0 <= j <= |user.devices|
        invariant tokens == Tokens(users, m.participants[..i]) + DeviceTokens(user.devices[..j])
      {
        assert user.devices[..j + 1][..j] == user.devices[..j];
        tokens := tokens + [user.devices[j].token];
        j := j + 1;
      }
      assert user.devices[..j] == user.devices;
      assert m.participants[..i + 1][..i] == m.participants[..i];
      i := i + 1;
    }
    assert m.participants[..i] == m.participants;
  }

  /** Resolution distributes over concatenation: earlier participants' tokens come first. */
  lemma {:induction false} TokensConcat(users: map<ObjectId, User>, a: seq<ObjectId>, b: seq<ObjectId>)
    ensures Tokens(users, a + b) == Tokens(users, a) + Tokens(users, b)
  {
    if b == [] {
      assert a + b == a;
    } else {
      var b' := b[..|b| - 1];
      assert (a + b)[..|a + b| - 1] == a + b';
      TokensConcat(users, a, b');
    }
  }

  /** The first participant's tokens lead the list. */
  lemma TokensCons(users: map<ObjectId, User>, p: ObjectId, ps: seq<ObjectId>)
    ensures Tokens(users, [p] + ps) == DeviceTokens(Lookup(users, p).devices) + Tokens(users, ps)
  {
    TokensConcat(users, [p], ps);
    assert [p][..0] == [];
  }

  /** The number of tokens is the number of devices of the resolvable participants. */
  lemma {:induction false} TokensLength(users: map<ObjectId, User>, ps: seq<ObjectId>)
    ensures |Tokens(users, ps)| == DeviceCount(users, ps)
  {
    if ps != [] {
      TokensCons(users, ps[0], ps[1..]);
      assert [ps[0]] + ps[1..] == ps;
      TokensLength(users, ps[1..]);
    }
  }

  /**
   * A participant without a user record contributes no token, and those
   * before and after it are resolved as if it were not there.
   */
  lemma MissingParticipantSkipped(users: map<ObjectId, User>, a: seq<ObjectId>, p: ObjectId, b: seq<ObjectId>)
    requires p !in users
    ensures Tokens(users, a + [p] + b) == Tokens(users, a + b)
  {
    TokensConcat(users, a + [p], b);
    TokensConcat(users, a, [p]);
    TokensConcat(users, a, b);
    assert [p][..0] == [];
  }

  /**
   * A token is resolved exactly when some resolvable participant has a device
   * carrying it.
   */
  lemma {:induction false} TokenResolved(users: map<ObjectId, User>, ps: seq<ObjectId>, t: string)
    ensures t in Tokens(users, ps) <==>
      exists i, k | 0 <= i < |ps| && ps[i] in users && 0 <= k < |users[ps[i]].devices| ::
        users[ps[i]].devices[k].token == t
  {
    if ps != [] {
      var init, last := ps[..|ps| - 1], ps[|ps| - 1];
      TokenResolved(users, init, t);
      var ds := Lookup(users, last).devices;
      if t in Tokens(users, ps) {
        if t in Tokens(users, init) {
          var i, k :| 0 <= i < |init| && init[i] in users && 0 <= k < |users[init[i]].devices|
                      && users[init[i]].devices[k].token == t;
          assert ps[i] == init[i];
        } else {
          assert t in DeviceTokens(ds);
          var k :| 0 <= k < |ds| && DeviceTokens(ds)[k] == t;
          assert ps[|ps| - 1] in users && users[ps[|ps| - 1]].devices[k].token == t;
        }
      } else {
        forall i, k | 0 <= i < |ps| && ps[i] in users && 0 <= k < |users[ps[i]].devices|
          ensures users[ps[i]].devices[k].token != t
        {
          if i < |ps| - 1 {
            assert init[i] == ps[i];
          } else {
            assert DeviceTokens(ds)[k] == users[ps[i]].devices[k].token;
          }
        }
      }
    }
  }
}
