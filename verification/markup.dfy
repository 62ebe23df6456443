/**
  * Inline keyboards as the bot sends them: rows of buttons, each a caption and the
  * callback data Telegram hands back when the button is pressed.
  */
module Markup {

  import opened Common
  import opened Text
  import opened Ints

  datatype Button = Button(text: string, data: string)

  type Row = seq<Button>

  type Keyboard = seq<Row>

  /** The callback payloads of one row, left to right. */
  function RowData(row: Row): (ds: seq<string>)
    ensures |ds| == |row|
    ensures forall i | 0 <= i < |row| :: ds[i] == row[i].data
  {
    seq(|row|, i requires 0 <= i < |row| => row[i].data)
  }

  /** Callback data ending in a number: `f"{prefix}:{n}"`. */
  function WithId(prefix: string, n: int): string {
    prefix + ":" + IntToString(n)
  }

  lemma IntToStringNoColon(n: int)
    ensures ':' !in IntToString(n)
  {
  }

  /** The handlers' decoding, `int(data.split(":")[-1])`, recovers the number put after the last colon. */
  lemma WithIdDecodes(prefix: string, n: int)
    ensures ParseInt(LastPart(WithId(prefix, n), ':')) == Some(n)
  {
    IntToStringNoColon(n);
    assert WithId(prefix, n) == prefix + [':'] + IntToString(n);
    LastPartAfterSep(prefix, ':', IntToString(n));
    ParseIntRoundTrip(n);
  }

  /** Different numbers give different callback data under the same prefix. */
  lemma WithIdDiffers(prefix: string, a: int, b: int)
    requires a != b
    ensures WithId(prefix, a) != WithId(prefix, b)
  {
    WithIdDecodes(prefix, a);
    WithIdDecodes(prefix, b);
  }

  /** Numbered callback data never collides with the inert `noop` payload. */
  lemma WithIdNotNoop(prefix: string, n: int)
    ensures WithId(prefix, n) != "noop"
  {
    assert WithId(prefix, n)[|prefix|] == ':';
  }

  /** The payloads of a navigation row: an optional back arrow, the inert label, an optional forward arrow. */
  lemma {:induction false} ArrowsPresent(back: string, forward: string, hasPrev: bool, hasNext: bool)
    requires back != forward && back != "noop" && forward != "noop"
    ensures var d := (if hasPrev then [back] else []) + ["noop"] + (if hasNext then [forward] else []);
            && (back in d <==> hasPrev) && (forward in d <==> hasNext) && "noop" in d
  {
  }
}
