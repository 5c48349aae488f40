/** The slack between the decoder of the device state and its encoder: the longest input the decoder
    takes, which no frame carries and the encoder never writes. */
module PrekeySlack {
  import opened Bytes
  import opened Frames
  import opened PrekeyState
  import opened PrekeyCodec
  import opened PrekeyBytes
  import opened PrekeyWitness

  const SLACK_PROJECTION: nat := 1_044_525

  function SlackDevice(): Device {
    Device(Identity(seq(16, _ => 1), 0, Zeros(32), Zeros(32), Zeros(32), Zeros(32)), 1, Pool(1, []), Pool(1, []),
           SignedKey(1, 0, Zeros(32), Zeros(64), Zeros(32)), SignedKey(1, 0, Zeros(1184), Zeros(64), Zeros(2400)),
           Zeros(64), [], Some(Pending(Zeros(16), UPLOAD_REPLENISH, Zeros(SLACK_PROJECTION))))
  }

  function SlackInput(): bytes {
    PutBody(ByteFrames(), SlackDevice()) + Zeros(32)
  }

  lemma SlackIsValid()
    ensures Shaped(SlackDevice()) && Consistent(SlackDevice()) && ValidateKeys(Willing(), SlackDevice()).Ok?
  {
    var d := SlackDevice();
    assert d.identity.userId[0] == 1;
    assert Embeds(d.currentPq.secret, d.currentPq.public);
  }

  lemma ReadsWithTag(pr: Primitives, read: bytes -> Result<Device>, keys: Device -> Result<()>, encoded: bytes,
                     d: Device, tag: Bytes32)
    requires |encoded| >= 8 && read(encoded) == Ok(d) && keys(d).Ok?
    requires Tag(pr, d.identity.identitySecret, encoded) == Ok(tag)
    ensures DecodeWith(pr, read, keys, encoded + tag) == Ok(d)
  {
    var input := encoded + tag;
    assert input[..|input| - TAG_BYTES] == encoded && input[|input| - TAG_BYTES..] == tag;
  }

  lemma TooLong(pr: Primitives, put: Device -> bytes, d: Device)
    requires |d.retired| == |d.classical.keys| == |d.pq.keys| == 0
    requires d.pending.Some? && |d.pending.value.projection| <= U32_MAX
    requires |put(d)| == MAX_INPUT_BYTES && pr.authKey(d.identity.identitySecret).Ok?
    ensures EncodeWith(pr, put, d) == Err(InputTooLarge)
  {
  }

  /** The decoder's bound is reached, and what it reads there cannot be written back. */
  lemma LongestDecodes()
    ensures |SlackInput()| == MAX_INPUT_BYTES + TAG_BYTES && Decode(Willing(), SlackInput()) == Ok(SlackDevice())
    ensures Encode(Willing(), SlackDevice()) == Err(InputTooLarge)
  {
    SlackIsValid();
    ByteFramesComplete();
    BodyComplete(ByteFrames(), SlackDevice());
    BodySize(ByteFrames(), SlackDevice());
    ReadsWithTag(Willing(), BodyReader(ByteFrames()), KeyChecks(Willing()), PutBody(ByteFrames(), SlackDevice()),
                 SlackDevice(), Zeros(32));
    TooLong(Willing(), BodyWriter(ByteFrames()), SlackDevice());
  }
}
