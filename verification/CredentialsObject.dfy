/** The credentials cache as an object; its methods are proved against `CredentialsCaching`. */
module CredentialsObject {
  import opened Common
  import Spec = CredentialsCaching

  class CredentialsCache {
    const apparmorEnabled: bool
    var current: map<nat, Spec.Credentials>
    var previous: map<nat, Spec.Credentials>
    var pending: map<nat, seq<nat>>

    ghost function State(): Spec.Cache
      reads this
    {
      Spec.Cache(current, previous, pending)
    }

    constructor (apparmorEnabled: bool)
      ensures State() == Spec.EMPTY && this.apparmorEnabled == apparmorEnabled
    {
      this.apparmorEnabled := apparmorEnabled;
      current, previous, pending := map[], map[], map[];
    }

    /** Returns what the callback was run with, if it was, and whether the bus daemon was asked. */
    method Get(peer: nat, callback: nat) returns (answer: Option<Spec.Credentials>, asked: bool)
      modifies this
      ensures State() == Spec.Get(old(State()), peer, callback)
      ensures answer == Spec.Answer(old(State()), peer)
      ensures asked <==> Spec.Asks(old(State()), peer)
    {
      answer, asked := None, false;
      if peer in current {
        answer := Some(current[peer]);
        return;
      }
      if peer in previous {
        current := current[peer := previous[peer]];
        previous := previous - {peer};
        answer := Some(current[peer]);
        return;
      }
      if peer in pending {
        pending := pending[peer := pending[peer] + [callback]];
        return;
      }
      asked := true;
      pending := pending[peer := [callback]];
    }

    /** Returns what the reply was turned into, and the callbacks that were run with it, in order. */
    method ReceivedCredentials(peer: nat, reply: Spec.Reply)
      returns (credentials: Spec.Credentials, told: seq<(nat, Spec.Credentials)>)
      requires peer in pending
      requires reply.UserReply? && reply.rawLabel != "" ==> reply.rawLabel[|reply.rawLabel| - 1] == '\0'
      modifies this
      ensures credentials.valid <==> reply.UserReply?
      ensures reply.ErrorReply? ==> credentials == Spec.Credentials(false, 0, "")
      ensures reply.UserReply? ==> credentials.user == reply.user
      ensures reply.UserReply? && !apparmorEnabled ==> credentials.profile == "unconfined"
      ensures reply.UserReply? && apparmorEnabled ==> Spec.ProfileOf(reply.rawLabel, credentials.profile)
      ensures State() == Spec.Received(old(State()), peer, credentials)
      ensures told == Spec.Told(old(pending)[peer], credentials)
    {
      hide Spec.ProfileOf, Spec.Received, Spec.Told;
      credentials := Spec.Credentials(false, 0, "");
      if reply.UserReply? {
        credentials := credentials.(valid := true, user := reply.user);
        if apparmorEnabled {
          var profile := TrimmedLabel(reply.rawLabel);
          credentials := credentials.(profile := profile);
        } else {
          credentials := credentials.(profile := "unconfined");
        }
      }
      told := Insert(peer, credentials);
    }

    /** The part about the label: the NUL goes, and then a mode in parentheses at the end. */
    static method TrimmedLabel(rawLabel: string) returns (text: string)
      requires rawLabel != "" ==> rawLabel[|rawLabel| - 1] == '\0'
      ensures Spec.ProfileOf(rawLabel, text)
    {
      text := rawLabel;
      if |text| > 0 {
        text := text[..|text| - 1];
        var pos := Spec.LastIndexOf(text, ' ');
        if pos > 0 && text[|text| - 1] == ')' && text[pos + 1] == '(' {
          text := text[..pos];
        }
      }
      Spec.TrimLabelIsProfile(rawLabel, text);
      hide Spec.ProfileOf;
    }

    /** The rest of the slot: the credentials are cached, and the callbacks waiting for them are run. */
    method Insert(peer: nat, credentials: Spec.Credentials) returns (told: seq<(nat, Spec.Credentials)>)
      requires peer in pending
      modifies this
      ensures State() == Spec.Received(old(State()), peer, credentials)
      ensures told == Spec.Told(old(pending)[peer], credentials)
    {
      if |current| >= Spec.MAX_CACHE_SIZE {
        previous := current;
        current := map[];
      }
      if peer !in current {
        current := current[peer := credentials];
      }

      told := [];
      for i := 0 to |pending[peer]|
        invariant pending == old(pending)
        invariant current == Spec.Received(old(State()), peer, credentials).current
        invariant previous == Spec.Received(old(State()), peer, credentials).previous
        invariant told == Spec.Told(pending[peer], credentials)[..i]
      {
        told := told + [(pending[peer][i], credentials)];
      }
      pending := pending - {peer};
    }
  }
}
