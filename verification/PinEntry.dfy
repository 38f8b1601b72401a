/** The keypad digit buffer. */
module PinEntry {
  import opened Wrappers

  const PIN_LEN: nat := 6

  datatype Key = Digit(d: u8) | Cancel | Enter

  datatype Submission = Pending | Ready(code: seq<u8>)

  /** Contents of the buffer that a key press can still observe. */
  type Buffered = s: seq<u8> | |s| <= PIN_LEN witness []

  function Pushed(b: Buffered, key: Key): Buffered {
    match key
    case Digit(d) => if |b| < PIN_LEN then b + [d] else [d]
    case _ => []
  }

  function Submitted(b: Buffered, key: Key): Submission {
    if key.Enter? && |b| == PIN_LEN then Ready(b) else Pending
  }

  function After(history: seq<Key>): Buffered {
    if history == [] then [] else Pushed(After(history[..|history| - 1]), history[|history| - 1])
  }

  // ---------------------------------------------------------------- closed form over history

  /** Digits pressed since the last Cancel or Enter, however many. */
  function DigitsSince(history: seq<Key>): seq<u8> {
    if history == [] then []
    else match history[|history| - 1]
      case Digit(d) => DigitsSince(history[..|history| - 1]) + [d]
      case _ => []
  }

  /** Digits still buffered once d of them have been pressed. */
  function Wrapped(d: nat): (len: nat)
    ensures len <= d && len <= PIN_LEN
  {
    if d == 0 then 0 else (d - 1) % PIN_LEN + 1
  }

  function LastDigits(ds: seq<u8>): Buffered {
    ds[|ds| - Wrapped(|ds|)..]
  }

  /** A positive multiple of six digits. */
  predicate Submits(ds: seq<u8>) {
    |ds| > 0 && |ds| % PIN_LEN == 0
  }

  /** What Enter would submit after `history`. */
  function OnEnter(history: seq<Key>): Submission {
    var ds := DigitsSince(history);
    if Submits(ds) then Ready(ds[|ds| - PIN_LEN..]) else Pending
  }

  lemma WrapStep(d: nat)
    ensures Wrapped(d + 1) == if Wrapped(d) < PIN_LEN then Wrapped(d) + 1 else 1
    ensures Wrapped(d) == PIN_LEN <==> d > 0 && d % PIN_LEN == 0
  {}

  lemma LastDigitsAppend(ds: seq<u8>, d: u8)
    ensures LastDigits(ds + [d]) == Pushed(LastDigits(ds), Digit(d))
  {
    WrapStep(|ds|);
    var w := Wrapped(|ds|);
    assert (ds + [d])[|ds|..] == [d];
    assert (ds + [d])[|ds| - w..] == ds[|ds| - w..] + [d];
  }

  /** The buffer wraps: after d digits it holds the last ((d-1) mod 6) + 1 of them. */
  lemma {:induction false} ClosedForm(history: seq<Key>)
    ensures After(history) == LastDigits(DigitsSince(history))
  {
    if history != [] {
      var init, key := history[..|history| - 1], history[|history| - 1];
      ClosedForm(init);
      if key.Digit? {
        LastDigitsAppend(DigitsSince(init), key.d);
      }
    }
  }

  /** Enter submits exactly the last six digits, and only when their count is a positive multiple of six. */
  lemma EnterClosedForm(history: seq<Key>)
    ensures Submitted(After(history), Enter) == OnEnter(history)
  {
    ClosedForm(history);
    WrapStep(|DigitsSince(history)|);
  }

  lemma HistoryAppend(history: seq<Key>, key: Key)
    ensures After(history + [key]) == Pushed(After(history), key)
    ensures DigitsSince(history + [key]) == if key.Digit? then DigitsSince(history) + [key.d] else []
  {
    assert (history + [key])[..|history|] == history;
  }

  // ---------------------------------------------------------------- the object

  class PinEntry {
    var buffer: array<u8>
    var len: nat
    ghost var history: seq<Key>

    /** Cells past `len` may hold digits of an abandoned attempt. */
    ghost predicate Valid()
      reads this, buffer
    {
      && buffer.Length == PIN_LEN && len <= PIN_LEN
      && buffer[..len] == After(history)
    }

    constructor ()
      ensures Valid() && fresh(buffer) && history == [] && len == 0
    {
      buffer := new u8[PIN_LEN](_ => 0);
      len := 0;
      history := [];
    }

    method Push(key: Key) returns (submission: Submission)
      requires Valid()
      modifies this, buffer
      ensures Valid() && buffer == old(buffer)
      ensures history == old(history) + [key]
      ensures submission == if key.Enter? then OnEnter(old(history)) else Pending
      ensures len == Wrapped(|DigitsSince(history)|)
    {
      EnterClosedForm(history);
      HistoryAppend(history, key);
      ClosedForm(history + [key]);
      match key {
        case Cancel =>
          Reset();
          submission := Pending;
        case Digit(d) =>
          if len < PIN_LEN {
            buffer[len] := d;
            len := len + 1;
          } else {
            buffer[0] := d;
            len := 1;
          }
          submission := Pending;
        case Enter =>
          submission := if len == PIN_LEN then Ready(buffer[..]) else Pending;
          Reset();
      }
      assert buffer[..len] == Pushed(old(buffer[..len]), key);
      history := history + [key];
    }

    method Reset()
      requires buffer.Length == PIN_LEN
      modifies this`len, buffer
      ensures len == 0
      ensures forall i :: 0 <= i < PIN_LEN ==> buffer[i] == 0
    {
      for i := 0 to PIN_LEN
        invariant forall j :: 0 <= j < i ==> buffer[j] == 0
      {
        buffer[i] := 0;
      }
      len := 0;
    }
  }
}
