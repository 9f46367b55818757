/**
 * The two-state network switch: a flag saying whether networking was turned
 * off, the button label that offers the opposite action, and the shell command
 * each press issues. The command's outcome is never consulted.
 */
module NetworkToggle {

  /** The button label shown while the flag is `disconnected`. */
  function LabelFor(disconnected: bool): (text: string)
    ensures text == "Reconnect" || text == "Disconnect"
    ensures text == "Reconnect" <==> disconnected
  {
    if disconnected then "Reconnect" else "Disconnect"
  }

  /**
   * The shell command a press issues while the flag is `disconnected`: the
   * one the current label offers.
   */
  function CommandFor(disconnected: bool): (cmd: string)
    ensures cmd == "nmcli networking on" <==> LabelFor(disconnected) == "Reconnect"
    ensures cmd == "nmcli networking off" <==> LabelFor(disconnected) == "Disconnect"
  {
    if disconnected then "nmcli networking on" else "nmcli networking off"
  }

  /** The flag after `n` presses starting from `start`. */
  function AfterPresses(start: bool, n: nat): bool {
    if n == 0 then start else !AfterPresses(start, n - 1)
  }

  /** Every press flips the flag, so it only depends on the parity of the presses. */
  lemma {:induction false} PressParity(start: bool, n: nat)
    ensures AfterPresses(start, n) == (start != (n % 2 == 1))
  {
    if n > 0 {
      PressParity(start, n - 1);
    }
  }
}
