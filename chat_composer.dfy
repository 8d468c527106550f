/** The chat page's input box: the send guard, sending, and the typing
    indicator with its 2000 ms debounce timer. The timer's expiry is an
    explicit event carrying the handle of the timer that fires. */
module ChatComposer {
  import opened Common
  import opened Text

  /** The events the page emits on its socket. */
  datatype Emit =
    | JoinOut(roomId: string, userId: string, userName: string)
    | ChatOut(roomId: string, senderId: string, senderName: string, content: string, kind: string)
    | TypingOut(roomId: string, userId: string, userName: string, isTyping: bool)

  /** The send guard of `sendMessage`: the trimmed input, or nothing when
      the input is empty or whitespace only. */
  function SendGuard(input: string): (r: Option<string>)
    ensures r.None? <==> IsBlank(input)
    ensures r.Some? ==> r.value == Trim(input) && r.value != []
                        && !IsJsWhitespace(r.value[0]) && !IsJsWhitespace(r.value[|r.value| - 1])
  {
    TrimEmptyIffBlank(input);
    TrimIsCore(input);
    var text := Trim(input);
    if text == "" then None else Some(text)
  }

  class Composer {
    const roomId: string
    const userId: string
    const userName: string
    /** `socketRef.current` is set. */
    var hasSocket: bool
    /** `connected`: the socket's connection is up. */
    var connected: bool
    /** `inputValue` */
    var input: string
    /** `isTypingRef.current` */
    var isTyping: bool
    /** The handle of the typing timer that is still scheduled, if any. */
    var pendingTimer: Option<nat>
    /** The handle the next `setTimeout` returns. */
    var nextTimer: nat
    /** Everything emitted on the socket, in order. */
    var outbox: seq<Emit>

    ghost predicate Valid()
      reads this
    {
      pendingTimer.Some? ==> pendingTimer.value < nextTimer
    }

    constructor (roomId: string, userId: string, userName: string)
      ensures Valid()
      ensures this.roomId == roomId && this.userId == userId && this.userName == userName
      ensures !hasSocket && !connected && input == "" && !isTyping && pendingTimer == None && outbox == []
    {
      this.roomId, this.userId, this.userName := roomId, userId, userName;
      hasSocket, connected, input, isTyping, pendingTimer, nextTimer, outbox := false, false, "", false, None, 0, [];
    }

    /** The mount effect creates the socket and stores it in `socketRef`
        at once, before any connection is up; nothing is emitted yet, and
        typing from now on is emitted (socket.io buffers it until the
        connection is up). */
    method Mount()
      requires Valid()
      modifies this
      ensures Valid() && hasSocket && connected == old(connected)
      ensures outbox == old(outbox) && input == old(input) && isTyping == old(isTyping)
      ensures pendingTimer == old(pendingTimer) && nextTimer == old(nextTimer)
    {
      hasSocket := true;
    }

    /** The `connect` handler of the mounted socket: the page is connected
        and asks to join its room. It runs on every (re)connection. */
    method Connect()
      requires Valid() && hasSocket
      modifies this
      ensures Valid() && hasSocket && connected
      ensures outbox == old(outbox) + [JoinOut(roomId, userId, userName)]
      ensures input == old(input) && isTyping == old(isTyping)
      ensures pendingTimer == old(pendingTimer) && nextTimer == old(nextTimer)
    {
      connected := true;
      outbox := outbox + [JoinOut(roomId, userId, userName)];
    }

    /** The `disconnect` handler: only the connected flag drops; the socket
        stays in `socketRef`, so sending and typing still emit. */
    method Disconnected()
      requires Valid()
      modifies this
      ensures Valid() && !connected && hasSocket == old(hasSocket)
      ensures outbox == old(outbox) && input == old(input) && isTyping == old(isTyping)
      ensures pendingTimer == old(pendingTimer) && nextTimer == old(nextTimer)
    {
      connected := false;
    }

    /** `handleInput`: records the text; with a socket, announces typing
        only on the change from not typing to typing, and restarts the
        timer: the old timer is cancelled and a fresh one is scheduled. */
    method HandleInput(value: string)
      requires Valid()
      modifies this
      ensures Valid() && input == value && hasSocket == old(hasSocket) && connected == old(connected)
      ensures !old(hasSocket) ==>
                isTyping == old(isTyping) && pendingTimer == old(pendingTimer)
                && nextTimer == old(nextTimer) && outbox == old(outbox)
      ensures old(hasSocket) ==>
                && isTyping
                && outbox == old(outbox) + (if old(isTyping) then [] else [TypingOut(roomId, userId, userName, true)])
                && pendingTimer == Some(old(nextTimer)) && nextTimer == old(nextTimer) + 1
    {
      input := value;
      if !hasSocket {
        return;
      }
      if !isTyping {
        isTyping := true;
        outbox := outbox + [TypingOut(roomId, userId, userName, true)];
      }
      pendingTimer := Some(nextTimer);
      nextTimer := nextTimer + 1;
    }

    /** The expiry of the typing timer `handle`, 2000 ms after it was
        armed. A cancelled timer never runs; the scheduled one clears the
        typing flag and announces that typing stopped. */
    method TimerExpired(handle: nat)
      requires Valid()
      modifies this
      ensures Valid() && input == old(input) && hasSocket == old(hasSocket) && nextTimer == old(nextTimer)
              && connected == old(connected)
      ensures old(pendingTimer) != Some(handle) ==>
                isTyping == old(isTyping) && pendingTimer == old(pendingTimer) && outbox == old(outbox)
      ensures old(pendingTimer) == Some(handle) ==>
                && !isTyping && pendingTimer == None
                && outbox == old(outbox) + (if hasSocket then [TypingOut(roomId, userId, userName, false)] else [])
    {
      if pendingTimer != Some(handle) {
        return;
      }
      pendingTimer := None;
      isTyping := false;
      if hasSocket {
        outbox := outbox + [TypingOut(roomId, userId, userName, false)];
      }
    }

    /** `sendMessage`: blank input, or no socket, sends nothing and changes
        nothing. Otherwise it emits the trimmed text as one chat message,
        then a stopped-typing event, and clears the input and the typing
        flag; the scheduled timer is left running. */
    method SendMessage()
      requires Valid()
      modifies this
      ensures Valid() && hasSocket == old(hasSocket) && connected == old(connected)
      ensures pendingTimer == old(pendingTimer) && nextTimer == old(nextTimer)
      ensures (SendGuard(old(input)).None? || !hasSocket) ==>
                input == old(input) && isTyping == old(isTyping) && outbox == old(outbox)
      ensures (SendGuard(old(input)).Some? && hasSocket) ==>
                && outbox == old(outbox) + [ChatOut(roomId, userId, userName, Trim(old(input)), "text"),
                                            TypingOut(roomId, userId, userName, false)]
                && !isTyping && input == ""
    {
      var text := SendGuard(input);
      if text.None? || !hasSocket {
        return;
      }
      outbox := outbox + [ChatOut(roomId, userId, userName, text.value, "text"),
                          TypingOut(roomId, userId, userName, false)];
      isTyping := false;
      input := "";
    }
  }
}
