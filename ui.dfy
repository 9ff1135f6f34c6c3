/** Keyboard navigation of the two-column terminal interface in
    clnews/ui.py: the arrow keys move the focus of the channel list or of the
    event list, wrapping around at either end, and `q` leaves the main
    loop. */
module Ui {
  import opened Types

  /** `navigate_mapper`: how far a key moves the focus. */
  const NAVIGATE: map<string, int> := map["up" := -1, "down" := 1]

  /** The focus `listbox_navigate` computes from focus `idx` for `key` in a
      list of `n` items: `(idx + navigate_mapper[key]) % n`. A key without a
      mapping raises `KeyError`; an empty list divides by zero. Python's `%`
      with a positive divisor is never negative, so the focus wraps around
      instead of leaving the list. */
  function NavigateFocus(idx: nat, key: string, n: nat): (r: Result<nat>)
    ensures r.Ok? <==> key in NAVIGATE && n > 0
    ensures key !in NAVIGATE ==> r == Err(KeyError)
    ensures key in NAVIGATE && n == 0 ==> r == Err(ZeroDivisionError)
    ensures r.Ok? ==> r.value < n
    ensures r.Ok? && idx < n ==>
              r.value == if idx + NAVIGATE[key] == n then 0
                         else if idx + NAVIGATE[key] < 0 then n - 1
                         else idx + NAVIGATE[key]
  {
    if key !in NAVIGATE then Err(KeyError)
    else if n == 0 then Err(ZeroDivisionError)
    else
      WrapMod(idx + NAVIGATE[key], n);
      Ok((idx + NAVIGATE[key]) % n)
  }

  /** One step past either end of `[0, n)` is taken back into it by `%`. */
  lemma WrapMod(x: int, n: nat)
    requires n > 0
    ensures -1 <= x <= n ==> x % n == if x == n then 0 else if x < 0 then n - 1 else x
  {
    if x == n {
      assert x == n * 1 + 0;
    } else if x == -1 {
      assert x == n * -1 + (n - 1);
    } else if 0 <= x < n {
      assert x == n * 0 + x;
    }
  }

  /** Inside the list, `down` moves one item further and `up` one item
      back. */
  lemma NavigateSteps(idx: nat, n: nat)
    requires idx < n
    ensures idx + 1 < n ==> NavigateFocus(idx, "down", n) == Ok(idx + 1)
    ensures 0 < idx ==> NavigateFocus(idx, "up", n) == Ok(idx - 1)
  {
  }

  /** `down` on the last item wraps to the first, and `up` on the first
      wraps to the last. */
  lemma NavigateWraps(n: nat)
    requires n > 0
    ensures NavigateFocus(n - 1, "down", n) == Ok(0)
    ensures NavigateFocus(0, "up", n) == Ok(n - 1)
  {
  }

  /** `up` undoes `down` anywhere in the list, the wrap-around included. */
  lemma NavigateRoundTrip(idx: nat, n: nat)
    requires idx < n
    ensures NavigateFocus(idx, "down", n).Ok?
    ensures NavigateFocus(NavigateFocus(idx, "down", n).value, "up", n) == Ok(idx)
  {
    NavigateWraps(n);
    NavigateSteps(idx, n);
    if idx + 1 < n {
      NavigateSteps(idx + 1, n);
    }
  }

  /** The outcome of navigating from `idx`. */
  function Moved(idx: nat, key: string, n: nat): Outcome
  {
    var r := NavigateFocus(idx, key, n);
    if r.Ok? then Pass else Fail(r.error)
  }

  /** The focus after navigating from `idx`: unchanged when navigation
      fails. */
  function Focused(idx: nat, key: string, n: nat): nat
  {
    var r := NavigateFocus(idx, key, n);
    if r.Ok? then r.value else idx
  }

  /** A `urwid.ListBox`: its items and the index of the focused one. */
  class ListBox<W> {
    const body: seq<W>
    var focus: nat

    constructor (body: seq<W>)
      ensures this.body == body && focus == 0
    {
      this.body := body;
      focus := 0;
    }

    /** `listbox_navigate(listbox, key)`: only the focus changes, and only
        when the new focus could be computed. */
    method Navigate(key: string) returns (o: Outcome)
      modifies this`focus
      ensures o == Moved(old(focus), key, |body|)
      ensures focus == Focused(old(focus), key, |body|)
    {
      var r := NavigateFocus(focus, key, |body|);
      if r.Err? {
        return Fail(r.error);
      }
      focus := r.value;
      o := Pass;
    }
  }

  /** What `exit_on_q` does with a key. */
  datatype Reaction = ExitLoop | Navigated(outcome: Outcome) | Ignored

  /** What a key means: `q` or `Q` leaves the loop, an arrow key moves the
      focus of the list in the focused column (the channels in column 0, the
      events otherwise), and every other key is left alone. */
  datatype Action = Leave | Move(channelColumn: bool, key: string) | Skip

  function KeyAction(key: string, focusColumn: nat): (a: Action)
    ensures a == Leave <==> key == "q" || key == "Q"
    ensures a.Move? <==> key in NAVIGATE
    ensures a.Move? ==> a.key == key && (a.channelColumn <==> focusColumn == 0)
  {
    if key == "q" || key == "Q" then Leave
    else if key == "up" || key == "down" then Move(focusColumn == 0, key)
    else Skip
  }

  /** `exit_on_q(key)` with the focused column and the two list boxes the
      module builds. */
  method ExitOnQ<W>(key: string, focusColumn: nat, channels: ListBox<W>, events: ListBox<W>) returns (r: Reaction)
    requires channels != events
    modifies channels`focus, events`focus
    ensures var a := KeyAction(key, focusColumn);
            && (a == Leave ==> r == ExitLoop)
            && (a == Skip ==> r == Ignored)
            && (a.Move? && a.channelColumn ==>
                  r == Navigated(Moved(old(channels.focus), key, |channels.body|))
                  && channels.focus == Focused(old(channels.focus), key, |channels.body|))
            && (!(a.Move? && a.channelColumn) ==> channels.focus == old(channels.focus))
            && (a.Move? && !a.channelColumn ==>
                  r == Navigated(Moved(old(events.focus), key, |events.body|))
                  && events.focus == Focused(old(events.focus), key, |events.body|))
            && (!(a.Move? && !a.channelColumn) ==> events.focus == old(events.focus))
  {
    var a := KeyAction(key, focusColumn);
    match a
    case Leave =>
      r := ExitLoop;
    case Skip =>
      r := Ignored;
    case Move(channelColumn, _) =>
      var o;
      if channelColumn {
        o := channels.Navigate(key);
      } else {
        o := events.Navigate(key);
      }
      r := Navigated(o);
  }
}
