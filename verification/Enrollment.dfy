// Enrolling a machine across restarts: the code, the identity on disk, and the control plane.

module Enrollments {
  import opened Common

  datatype AuthMode = SharedSecret | Signed | Both

  const EXIT_FAILED: nat := 2
  const EXIT_CODE_REFUSED: nat := 3
  const EXIT_CONTROL_PLANE_UNREACHABLE: nat := 4
  const EXIT_LOCAL_NETWORK_BLOCKED: nat := 5

  datatype Identity = Identity(machine: nat, usableKeys: nat, codeFp: Option<string>)

  // What the control plane makes of a code, or why it was not heard.
  datatype Reply = Enrolled(machine: nat, usableKeys: nat) | CodeRejected | LocalNetwork | Unreachable | Timeout | Odd

  // What one boot finds around it. `code` and `controlPlane` are trimmed; `fingerprint` is the
  // code's.
  datatype Boot = Boot(mode: AuthMode, hasToken: bool, code: string, controlPlane: string, readable: bool,
                       reply: Reply, writable: bool)

  datatype Start = Running | Exits(code: nat)

  datatype Outcome = Outcome(stored: Option<Identity>, exchanged: bool, start: Start)

  function FingerprintOf(fp: string -> string, code: string): Option<string> {
    if code == "" then None else Some(fp(code))
  }

  function SavedFp(stored: Option<Identity>): Option<string> {
    if stored.Some? then stored.value.codeFp else None
  }

  predicate NeedsEnrollment(fp: string -> string, stored: Option<Identity>, code: string) {
    code != "" && SavedFp(stored) != Some(fp(code))
  }

  function Refusal(reply: Reply): nat {
    if reply == CodeRejected then EXIT_CODE_REFUSED
    else if reply == LocalNetwork then EXIT_LOCAL_NETWORK_BLOCKED
    else if reply == Unreachable || reply == Timeout then EXIT_CONTROL_PLANE_UNREACHABLE
    else EXIT_FAILED
  }

  function Verifying(b: Boot, identity: Identity): Start {
    if identity.usableKeys == 0 || (b.mode == Both && !b.hasToken) then Exits(EXIT_FAILED) else Running
  }

  function Booted(fp: string -> string, stored: Option<Identity>, b: Boot): Outcome {
    if b.mode == SharedSecret then Outcome(stored, false, if b.hasToken then Running else Exits(EXIT_FAILED))
    else if !b.readable then Outcome(stored, false, Exits(EXIT_FAILED))
    else if NeedsEnrollment(fp, stored, b.code) then
      if b.controlPlane == "" then Outcome(stored, false, Exits(EXIT_FAILED))
      else if !b.reply.Enrolled? then Outcome(stored, true, Exits(Refusal(b.reply)))
      else if !b.writable then Outcome(stored, true, Exits(EXIT_FAILED))
      else
        var identity := Identity(b.reply.machine, b.reply.usableKeys, Some(fp(b.code)));
        Outcome(Some(identity), true, Verifying(b, identity))
    else if stored == None then Outcome(stored, false, Exits(EXIT_FAILED))
    else Outcome(stored, false, Verifying(b, stored.value))
  }

  // The identity store, and the decision the daemon makes with it at every boot.
  class IdentityStore {
    var stored: Option<Identity>

    constructor ()
      ensures stored == None
    {
      stored := None;
    }

    method BuildVerifier(fp: string -> string, b: Boot) returns (exchanged: bool, start: Start)
      modifies this
      ensures Outcome(stored, exchanged, start) == Booted(fp, old(stored), b)
    {
      exchanged := false;
      if b.mode == SharedSecret {
        if !b.hasToken { return false, Exits(EXIT_FAILED); }
        return false, Running;
      }
      if !b.readable { return false, Exits(EXIT_FAILED); }
      var identity := stored;
      var fingerprint := FingerprintOf(fp, b.code);
      var needsEnrollment := fingerprint != None && (identity == None || identity.value.codeFp != fingerprint);
      if needsEnrollment {
        if b.controlPlane == "" { return false, Exits(EXIT_FAILED); }
        exchanged := true;
        match b.reply {
          case Enrolled(machine, usableKeys) =>
            identity := Some(Identity(machine, usableKeys, fingerprint));
            if !b.writable { return true, Exits(EXIT_FAILED); }
            stored := identity;
          case CodeRejected => return true, Exits(EXIT_CODE_REFUSED);
          case LocalNetwork => return true, Exits(EXIT_LOCAL_NETWORK_BLOCKED);
          case Unreachable => return true, Exits(EXIT_CONTROL_PLANE_UNREACHABLE);
          case Timeout => return true, Exits(EXIT_CONTROL_PLANE_UNREACHABLE);
          case Odd => return true, Exits(EXIT_FAILED);
        }
      }
      if identity == None { return exchanged, Exits(EXIT_FAILED); }
      if identity.value.usableKeys == 0 { return exchanged, Exits(EXIT_FAILED); }
      if b.mode == Both && !b.hasToken { return exchanged, Exits(EXIT_FAILED); }
      return exchanged, Running;
    }
  }

  // ---- how a boot ends ----

  // It has a code to exchange, and somewhere to take it.
  predicate Asks(fp: string -> string, stored: Option<Identity>, b: Boot) {
    && b.mode != SharedSecret && b.readable && b.controlPlane != "" && b.code != ""
    && (stored == None || stored.value.codeFp != Some(fp(b.code)))
  }

  // It signs tokens and is left with an identity that has a key to check them with.
  predicate HasKeys(fp: string -> string, stored: Option<Identity>, b: Boot) {
    if b.code == "" || (stored.Some? && stored.value.codeFp == Some(fp(b.code)))
    then stored.Some? && stored.value.usableKeys > 0
    else b.controlPlane != "" && b.reply.Enrolled? && b.reply.usableKeys > 0 && b.writable
  }

  // A boot comes up exactly when it has the token it needs and, unless a token is all it takes, keys it
  // could read and keep. It exits with 3 for a code refused, 5 for a network that is kept from it, 4 for
  // a control plane not reached, and 2 for everything else.
  lemma ABootEndsExactly(fp: string -> string, stored: Option<Identity>, b: Boot)
    ensures var start := Booted(fp, stored, b).start;
            && (start == Running
                <==> if b.mode == SharedSecret then b.hasToken
                     else b.readable && (b.mode == Both ==> b.hasToken) && HasKeys(fp, stored, b))
            && (start == Exits(3) <==> Asks(fp, stored, b) && b.reply.CodeRejected?)
            && (start == Exits(5) <==> Asks(fp, stored, b) && b.reply.LocalNetwork?)
            && (start == Exits(4) <==> Asks(fp, stored, b) && (b.reply.Unreachable? || b.reply.Timeout?))
            && start in {Running, Exits(2), Exits(3), Exits(4), Exits(5)}
    ensures Booted(fp, stored, b).exchanged <==> Asks(fp, stored, b)
    ensures Booted(fp, stored, b).stored
            == if Asks(fp, stored, b) && b.reply.Enrolled? && b.writable
               then Some(Identity(b.reply.machine, b.reply.usableKeys, Some(fp(b.code)))) else stored
  {}

  // ---- over every sequence of boots, the identity being kept between them ----

  function StoredAfter(fp: string -> string, stored: Option<Identity>, boots: seq<Boot>): Option<Identity>
    decreases |boots|
  {
    if boots == [] then stored else StoredAfter(fp, Booted(fp, stored, boots[0]).stored, boots[1..])
  }

  // How many of the boots spoke to the control plane.
  function Exchanges(fp: string -> string, stored: Option<Identity>, boots: seq<Boot>): nat
    decreases |boots|
  {
    if boots == [] then 0
    else
      var o := Booted(fp, stored, boots[0]);
      (if o.exchanged then 1 else 0) + Exchanges(fp, o.stored, boots[1..])
  }

  // The code whose identity was last saved: of the last boot that enrolled and could write.
  function LastSaved(fp: string -> string, stored: Option<Identity>, boots: seq<Boot>): Option<string>
    decreases |boots|
  {
    if boots == [] then None
    else
      var o := Booted(fp, stored, boots[0]);
      var later := LastSaved(fp, o.stored, boots[1..]);
      if later.Some? then later
      else if o.exchanged && boots[0].reply.Enrolled? && boots[0].writable then Some(boots[0].code)
      else None
  }

  // What is on disk after any boots is the fingerprint of the code last saved.
  lemma {:induction false} DiskHoldsTheLastSavedCode(fp: string -> string, stored: Option<Identity>, boots: seq<Boot>)
    ensures SavedFp(StoredAfter(fp, stored, boots))
            == var last := LastSaved(fp, stored, boots); if last.Some? then Some(fp(last.value)) else SavedFp(stored)
    decreases |boots|
  {
    if boots != [] { DiskHoldsTheLastSavedCode(fp, Booted(fp, stored, boots[0]).stored, boots[1..]); }
  }

  // A boot speaks to the control plane exactly when it signs tokens, can read its identity, knows
  // where the control plane is, and has a code whose fingerprint is not that of the code last saved.
  lemma AnExchangeNeedsANewCode(fp: string -> string, boots: seq<Boot>, b: Boot)
    ensures Booted(fp, StoredAfter(fp, None, boots), b).exchanged
            <==> b.mode != SharedSecret && b.readable && b.controlPlane != "" && b.code != ""
                 && !(LastSaved(fp, None, boots).Some? && fp(LastSaved(fp, None, boots).value) == fp(b.code))
  {
    DiskHoldsTheLastSavedCode(fp, None, boots);
  }

  predicate Uses(b: Boot, code: string) { b.code == code || b.code == "" }

  // Once a code's identity has been saved, no boot with that code or with none exchanges anything,
  // whatever else goes wrong, and the identity stays.
  lemma {:induction false} ASavedCodeIsNeverSentAgain(fp: string -> string, stored: Option<Identity>, boots: seq<Boot>,
                                                      code: string)
    requires SavedFp(stored) == Some(fp(code)) && forall i :: 0 <= i < |boots| ==> Uses(boots[i], code)
    ensures Exchanges(fp, stored, boots) == 0 && StoredAfter(fp, stored, boots) == stored
    decreases |boots|
  {
    if boots != [] {
      assert Uses(boots[0], code);
      ASavedCodeIsNeverSentAgain(fp, stored, boots[1..], code);
    }
  }

  // With no code there is never an exchange, identity or not.
  lemma {:induction false} NoCodeNoExchange(fp: string -> string, stored: Option<Identity>, boots: seq<Boot>)
    requires forall i :: 0 <= i < |boots| ==> boots[i].code == ""
    ensures Exchanges(fp, stored, boots) == 0 && StoredAfter(fp, stored, boots) == stored
    decreases |boots|
  {
    if boots != [] { NoCodeNoExchange(fp, stored, boots[1..]); }
  }

  // How many times the control plane accepted a code.
  function Granted(fp: string -> string, stored: Option<Identity>, boots: seq<Boot>): nat
    decreases |boots|
  {
    if boots == [] then 0
    else
      var o := Booted(fp, stored, boots[0]);
      (if o.exchanged && boots[0].reply.Enrolled? then 1 else 0) + Granted(fp, o.stored, boots[1..])
  }

  lemma {:induction false} GrantedIsExchanged(fp: string -> string, stored: Option<Identity>, boots: seq<Boot>)
    ensures Granted(fp, stored, boots) <= Exchanges(fp, stored, boots)
    decreases |boots|
  {
    if boots != [] { GrantedIsExchanged(fp, Booted(fp, stored, boots[0]).stored, boots[1..]); }
  }

  // A single code, restarted any number of times, is redeemed at most once, as long as what is
  // granted can be written down.
  lemma {:induction false} ACodeIsRedeemedOnce(fp: string -> string, stored: Option<Identity>, boots: seq<Boot>,
                                               code: string)
    requires forall i :: 0 <= i < |boots| ==> Uses(boots[i], code) && (boots[i].reply.Enrolled? ==> boots[i].writable)
    ensures Granted(fp, stored, boots) <= 1
    decreases |boots|
  {
    if boots != [] {
      var o := Booted(fp, stored, boots[0]);
      assert Uses(boots[0], code);
      if o.exchanged && boots[0].reply.Enrolled? {
        ASavedCodeIsNeverSentAgain(fp, o.stored, boots[1..], code);
        GrantedIsExchanged(fp, o.stored, boots[1..]);
      } else {
        ACodeIsRedeemedOnce(fp, o.stored, boots[1..], code);
      }
    }
  }

  // When it cannot be written down the code is spent and nothing is kept, and the next boot sends
  // it again: that, or a reply that never came, is the only way a code is sent twice.
  lemma ACodeIsSentTwiceExactly(fp: string -> string, stored: Option<Identity>, first: Boot, second: Boot)
    requires Booted(fp, stored, first).exchanged
    requires second.mode != SharedSecret && second.readable && second.controlPlane != "" && second.code == first.code
    ensures Booted(fp, Booted(fp, stored, first).stored, second).exchanged
            <==> !(first.reply.Enrolled? && first.writable)
  {}
}
