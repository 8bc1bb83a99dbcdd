/** The service that updates access token rows in place. */
module AccessTokenService {
  import opened Options
  import opened AccessTokens

  class AccessTokenService {
    var tokens: Tokens

    constructor (tokens: Tokens)
      ensures this.tokens == tokens
    {
      this.tokens := tokens;
    }

    // Returns the usage of a limited token, nothing for an unlimited one. Between the update and the
    // re-read `waited` milliseconds pass; the table is this call's alone.
    method ConsumeInvocation(id: TokenId, now: int, waited: nat) returns (result: Result<Option<int>, Refusal>)
      modifies this
      ensures tokens == if Consumable(old(tokens), id, now) then Consumed(old(tokens), id) else old(tokens)
      ensures result.Done? <==> Consumable(old(tokens), id, now) || AtExpiry(old(tokens), id, now + waited)
      ensures result.Thrown? ==> Resolve(tokens, id, now + waited) == Thrown(result.error)
      // What every call gets, field by field.
      ensures id !in old(tokens) || old(tokens)[id].deleted ==> result == Thrown(Invalid)
      ensures id in old(tokens) && !old(tokens)[id].deleted && old(tokens)[id].status != Active ==>
                result == Thrown(Stopped)
      ensures id in old(tokens) && !old(tokens)[id].deleted && old(tokens)[id].status == Active ==>
                var token := old(tokens)[id];
                && (token.expiresAt.Some? && token.expiresAt.value < now ==> result == Thrown(Expired))
                && (result == Thrown(Expired) ==> token.expiresAt.Some? && token.expiresAt.value < now + waited)
                && ((token.expiresAt.None? || token.expiresAt.value > now) ==>
                      (token.maximum.None? || token.usage < token.maximum.value ==> result.Done?))
                && (result == Thrown(Exhausted) ==>
                      token.maximum.Some? && token.usage >= token.maximum.value)
                && (token.expiresAt.None? && token.maximum.Some? && token.usage >= token.maximum.value ==>
                      result == Thrown(Exhausted))
      // The counter of a limited token that is admitted before its expiry goes up by one; nothing else changes.
      ensures forall other :: other in tokens <==> other in old(tokens)
      ensures forall other <- tokens :: other != id ==> tokens[other] == old(tokens)[other]
      ensures id in tokens ==>
                var token := old(tokens)[id];
                tokens[id] == token.(usage :=
                  if result.Done? && token.maximum.Some? && (token.expiresAt.None? || token.expiresAt.value > now)
                  then token.usage + 1 else token.usage)
      ensures result.Done? ==> id in tokens
      ensures result.Done? ==> result.value == if tokens[id].maximum.None? then None else Some(tokens[id].usage)
    {
      var record: Token;
      if Consumable(tokens, id, now) {
        tokens := Consumed(tokens, id);
        record := tokens[id];
      } else {
        var found := Resolve(tokens, id, now + waited);
        if found.Thrown? {
          return Thrown(found.error);
        }
        record := found.value;
      }
      result := Done(if record.maximum.None? then None else Some(record.usage));
    }

    // A field that is left out keeps its value. Fails when the token does not exist.
    method UpdatePolicy(id: TokenId, maximum: Option<Option<int>>, expiresAt: Option<Option<int>>) returns (found: bool)
      modifies this
      ensures found <==> id in old(tokens) && !old(tokens)[id].deleted
      ensures tokens == EditPolicy(old(tokens), id, maximum, expiresAt)
      ensures found ==>
                id in tokens &&
                (maximum.Some? ==> tokens[id].maximum == maximum.value) &&
                (maximum.None? ==> tokens[id].maximum == old(tokens)[id].maximum) &&
                (expiresAt.Some? ==> tokens[id].expiresAt == expiresAt.value) &&
                (expiresAt.None? ==> tokens[id].expiresAt == old(tokens)[id].expiresAt) &&
                tokens[id].usage == old(tokens)[id].usage && tokens[id].status == old(tokens)[id].status
    {
      if id !in tokens || tokens[id].deleted {
        return false;
      }
      var token := tokens[id];
      if maximum.Some? {
        token := token.(maximum := maximum.value);
      }
      if expiresAt.Some? {
        token := token.(expiresAt := expiresAt.value);
      }
      tokens := tokens[id := token];
      return true;
    }

    method RecordMonthlyUsage(id: TokenId, month: int)
      modifies this
      ensures tokens == AccessTokens.RecordMonthlyUsage(old(tokens), id, month)
      ensures id in old(tokens) && !old(tokens)[id].deleted ==>
                id in tokens && tokens[id].period == Some(month) &&
                tokens[id].monthly ==
                (if old(tokens)[id].period == Some(month) then old(tokens)[id].monthly + 1 else 1) &&
                CurrentMonthlyUsage(tokens[id], month) == CurrentMonthlyUsage(old(tokens)[id], month) + 1
      ensures id !in old(tokens) || old(tokens)[id].deleted ==> tokens == old(tokens)
    {
      if Alive(tokens, id) {
        var token := tokens[id];
        if token.period == Some(month) {
          tokens := tokens[id := token.(monthly := token.monthly + 1)];
        } else {
          tokens := tokens[id := token.(monthly := 1, period := Some(month))];
        }
      }
    }

    // Fails when the token does not exist.
    method ResetUsage(id: TokenId, month: int) returns (found: bool)
      modifies this
      ensures found <==> id in old(tokens) && !old(tokens)[id].deleted
      ensures tokens == AccessTokens.ResetUsage(old(tokens), id, month)
      ensures found ==>
                id in tokens && tokens[id].monthly == 0 && tokens[id].usage == 0 && tokens[id].period == Some(month)
    {
      found := Alive(tokens, id);
      if found {
        tokens := tokens[id := tokens[id].(usage := 0, monthly := 0, period := Some(month))];
      }
    }

    // Afterwards nothing consumes the token until its status changes.
    method Revoke(id: TokenId) returns (found: bool)
      modifies this
      ensures found == (id in old(tokens)) && tokens == AccessTokens.Revoke(old(tokens), id)
      ensures found ==> id in tokens && tokens[id].status == Revoked && tokens[id].deleted == old(tokens)[id].deleted
      ensures forall now :: !Consumable(tokens, id, now) && Resolve(tokens, id, now).Thrown?
    {
      found := id in tokens;
      if found {
        tokens := tokens[id := tokens[id].(status := Revoked)];
      }
    }

    method Delete(id: TokenId) returns (found: bool)
      modifies this
      ensures tokens == AccessTokens.Delete(old(tokens), id)
      ensures found <==> id in old(tokens) && !old(tokens)[id].deleted
      ensures id in old(tokens) ==> id in tokens && tokens[id].deleted && tokens[id].status == old(tokens)[id].status
      ensures forall now :: !Consumable(tokens, id, now) && Resolve(tokens, id, now) == Thrown(Invalid)
    {
      found := Alive(tokens, id);
      if found {
        tokens := tokens[id := tokens[id].(deleted := true)];
      }
    }
  }
}
