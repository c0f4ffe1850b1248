// The text frame around a state copied to or pasted from the clipboard:
// "cpv1", the base64 payload, and a closing '.'.
module Clipboard {
  import opened Wrappers

  const Magic: string := "cpv1"

  /** cpt_copy: the frame written to the clipboard. */
  function Frame(payload: string): (s: string)
    ensures |s| == |payload| + 5
  {
    Magic + payload + "."
  }

  /** input.substr(0, 4): the first four characters, or all of a shorter input. */
  function Prefix4(s: string): string {
    if |s| <= 4 then s else s[..4]
  }

  /** cpt_paste: the payload strictly between the magic and the final '.',
      or None for text that lacks either. */
  function Unframe(s: string): Option<string> {
    if Prefix4(s) != Magic || s[|s| - 1] != '.' then None
    else
      assert |s| >= 5 by {
        assert s[..4] == Magic;
      }
      Some(s[4..|s| - 1])
  }

  /** Unframing undoes framing ... */
  lemma UnframeFrame(payload: string)
    ensures Unframe(Frame(payload)) == Some(payload)
  {
    var s := Frame(payload);
    assert s[..4] == Magic;
    assert s[|s| - 1] == '.';
    assert s[4..|s| - 1] == payload;
  }

  /** ... and accepts nothing else: the text is accepted exactly when it is
      the frame of the payload returned. */
  lemma UnframeOnlyFrames(s: string, payload: string)
    ensures Unframe(s) == Some(payload) <==> s == Frame(payload)
  {
    if s == Frame(payload) {
      UnframeFrame(payload);
    }
    if Unframe(s) == Some(payload) {
      assert s == s[..4] + s[4..|s| - 1] + [s[|s| - 1]];
    }
  }

  /** Text too short to hold the magic and the '.', or without either, is
      rejected. */
  lemma UnframeRejects(s: string)
    ensures |s| < 5 ==> Unframe(s) == None
    ensures |s| >= 4 && s[..4] != Magic ==> Unframe(s) == None
    ensures |s| > 0 && s[|s| - 1] != '.' ==> Unframe(s) == None
  {
  }
}
