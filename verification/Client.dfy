/** client_example.py, unlock: the honest phone. */
module Client {
  import opened Prelude
  import Challenges
  import Wire

  // The challenge message as parsed; `kind` is its type field.
  datatype Challenge = Challenge(kind: string, target: string, nonce: string, issuedMs: int, signature: Option<string>)

  // The text the phone signs, or None when it raises before signing anything.
  function Unlock(verifies: Challenges.Verifies, laptopKey: string, device: string, target: string, ch: Challenge)
    : Option<string>
  {
    if ch.kind != "challenge" || ch.target != target then None
    else match Wire.SignedMessage(Wire.CHALLENGE, ch.nonce, ch.issuedMs, device, target)
    case None => None
    case Some(text) =>
      if !Challenges.SignatureHolds(verifies, laptopKey, text, ch.signature) then None
      else Wire.SignedMessage(Wire.RESPONSE, ch.nonce, ch.issuedMs, device, target)
  }

  // The phone signs exactly when it is asked as itself by the laptop: a challenge for its target that
  // carries the laptop's signature. What it signs then reads as the response to that challenge.
  lemma {:induction false} UnlockExactly(verifies: Challenges.Verifies, laptopKey: string, device: string,
                                         target: string, ch: Challenge)
    ensures var signed := Unlock(verifies, laptopKey, device, target, ch);
            var asked := Wire.SignedMessage(Wire.CHALLENGE, ch.nonce, ch.issuedMs, device, target);
            && (signed.Some? <==>
                  && ch.kind == "challenge" && ch.target == target && asked.Some?
                  && ch.signature.Some? && |ch.signature.value| <= 200
                  && verifies(laptopKey, asked.value, ch.signature.value))
            && (signed.Some? ==>
                  && signed == Wire.SignedMessage(Wire.RESPONSE, ch.nonce, ch.issuedMs, device, target)
                  && Wire.ReadMessage(signed.value)
                     == Some(Wire.Fields("response", ch.nonce, ch.issuedMs, device, target)))
  {
    if Wire.SignedMessage(Wire.RESPONSE, ch.nonce, ch.issuedMs, device, target).Some? {
      Wire.ReadsBack(Wire.RESPONSE, ch.nonce, ch.issuedMs, device, target);
    }
  }
}
