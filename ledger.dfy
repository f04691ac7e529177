/** The points ledger: the `/transfer` and `/fine` command handlers over the
    `users` table. Each handler validates, reads the rows it needs, checks the
    balance and then writes new balances computed from what it read. */
module Ledger {
  import opened Common
  import opened Store
  import opened Access

  /** Why a command replied with an error instead of changing balances. */
  datatype Reason =
    | NoPermission          // the caller lacks an admin role
    | InvalidInput          // no target user, or an unusable amount
    | SenderFetchFailed     // the caller's own row could not be read
    | InsufficientPoints    // the balance is below the amount
    | ReceiverFetchFailed   // the receiver's row could not be read
    | SenderUpdateFailed    // the store rejected the sender's new balance
    | ReceiverUpdateFailed  // the store rejected the receiver's new balance
    | TargetFetchFailed     // the fined user's row could not be read
    | UpdateFailed          // the store rejected the command's one write

  datatype TransferOutcome = Transferred | TransferRejected(reason: Reason)

  datatype FineOutcome = Fined(newBalance: int) | FineRejected(reason: Reason)

  /** Which `update` call of one command, counted from 0, the store rejects. */
  datatype WriteFault = NoFault | FailsAt(write: nat)

  /** `/transfer` as written: the caller pays `amount` to `target`. The amount
      is refused only when it is 0 (falsy); both new balances are computed
      from the rows read before the first write, and the sender's row is
      written before the receiver's. */
  function TransferResult(rows: Table, callerId: DiscordId, caller: MemberView,
                          target: Option<DiscordId>, amount: int, fault: WriteFault): (TransferOutcome, Table)
  {
    if !HasAdminRole(caller) then (TransferRejected(NoPermission), rows)
    else if target.None? || amount == 0 then (TransferRejected(InvalidInput), rows)
    else match Single(rows, callerId)
      case None => (TransferRejected(SenderFetchFailed), rows)
      case Some(sender) =>
        if sender.points < amount then (TransferRejected(InsufficientPoints), rows)
        else match Single(rows, target.value)
          case None => (TransferRejected(ReceiverFetchFailed), rows)
          case Some(receiver) =>
            if fault == FailsAt(0) then (TransferRejected(SenderUpdateFailed), rows)
            else
              var debited := SetPoints(rows, callerId, sender.points - amount);
              if fault == FailsAt(1) then (TransferRejected(ReceiverUpdateFailed), debited)
              else (Transferred, SetPoints(debited, target.value, receiver.points + amount))
  }

  /** `/fine` as written: `amount` is taken from `target`'s balance and
      credited to nobody. */
  function FineResult(rows: Table, caller: MemberView, target: Option<DiscordId>,
                      amount: int, fault: WriteFault): (FineOutcome, Table)
  {
    if !HasAdminRole(caller) then (FineRejected(NoPermission), rows)
    else if target.None? || amount <= 0 then (FineRejected(InvalidInput), rows)
    else match Single(rows, target.value)
      case None => (FineRejected(TargetFetchFailed), rows)
      case Some(user) =>
        if user.points < amount then (FineRejected(InsufficientPoints), rows)
        else if fault == FailsAt(0) then (FineRejected(UpdateFailed), rows)
        else (Fined(user.points - amount), SetPoints(rows, target.value, user.points - amount))
  }

  /** The two writes of a transfer between two different users, each aimed
      at a single row, move `amount`: a lookup afterwards finds the sender
      down by `amount` and the receiver up by `amount`, and the sum of all
      balances is the same as before. */
  lemma TwoWritesMove(rows: Table, senderId: DiscordId, receiverId: DiscordId, amount: int)
    requires senderId != receiverId && Single(rows, senderId).Some? && Single(rows, receiverId).Some?
    ensures var sender, receiver := Single(rows, senderId).value, Single(rows, receiverId).value;
            var after := SetPoints(SetPoints(rows, senderId, sender.points - amount), receiverId, receiver.points + amount);
            && Single(after, senderId) == Some(sender.(points := sender.points - amount))
            && Single(after, receiverId) == Some(receiver.(points := receiver.points + amount))
            && Total(after) == Total(rows)
  {
    var sender, receiver := Single(rows, senderId).value, Single(rows, receiverId).value;
    var ps, pr := sender.points - amount, receiver.points + amount;
    var debited := SetPoints(rows, senderId, ps);
    var after := SetPoints(debited, receiverId, pr);
    assert Single(debited, receiverId) == Single(rows, receiverId) by {
      SingleAfterSetPoints(rows, senderId, ps, receiverId);
    }
    assert Total(after) == Total(rows) by {
      TotalSetPoints(rows, senderId, ps);
      TotalSetPoints(debited, receiverId, pr);
    }
    assert Single(after, senderId) == Some(sender.(points := ps)) by {
      SingleAfterSetPoints(rows, senderId, ps, senderId);
      SingleAfterSetPoints(debited, receiverId, pr, senderId);
    }
    assert Single(after, receiverId) == Some(receiver.(points := pr)) by {
      SingleAfterSetPoints(debited, receiverId, pr, receiverId);
    }
  }

  /** A successful transfer between two different users moves `amount`: a
      lookup afterwards finds the sender down by `amount` and the receiver up
      by `amount`, and the sum of all balances is the same as before. */
  lemma TransferConserves(rows: Table, callerId: DiscordId, caller: MemberView,
                          receiverId: DiscordId, amount: int, fault: WriteFault)
    requires TransferResult(rows, callerId, caller, Some(receiverId), amount, fault).0 == Transferred
    requires callerId != receiverId
    ensures var after := TransferResult(rows, callerId, caller, Some(receiverId), amount, fault).1;
            && Single(after, callerId) == Some(Single(rows, callerId).value.(points := Single(rows, callerId).value.points - amount))
            && Single(after, receiverId) == Some(Single(rows, receiverId).value.(points := Single(rows, receiverId).value.points + amount))
            && Total(after) == Total(rows)
  {
    assert TransferResult(rows, callerId, caller, Some(receiverId), amount, fault).1
        == SetPoints(SetPoints(rows, callerId, Single(rows, callerId).value.points - amount), receiverId,
                     Single(rows, receiverId).value.points + amount);
    TwoWritesMove(rows, callerId, receiverId, amount);
  }

  /** A successful transfer between two different users rewrites exactly
      the sender's row and the receiver's row. */
  lemma TransferTouchesTwoRows(rows: Table, callerId: DiscordId, caller: MemberView,
                               receiverId: DiscordId, amount: int, fault: WriteFault)
    returns (ks: nat, kr: nat)
    requires TransferResult(rows, callerId, caller, Some(receiverId), amount, fault).0 == Transferred
    requires callerId != receiverId
    ensures ks < |rows| && kr < |rows| && ks != kr
    ensures HasId(rows[ks], callerId) && HasId(rows[kr], receiverId)
    ensures TransferResult(rows, callerId, caller, Some(receiverId), amount, fault).1
            == rows[ks := rows[ks].(points := rows[ks].points - amount)][kr := rows[kr].(points := rows[kr].points + amount)]
  {
    var sender, receiver := Single(rows, callerId).value, Single(rows, receiverId).value;
    ks, kr := UpdateTwo(rows, callerId, receiverId, sender.points - amount, receiver.points + amount);
    var j := SingleAt(rows, callerId);
    var l := SingleAt(rows, receiverId);
  }

  /** The two writes of a transfer between two different users take
      `amount` out of the sender's team sum and add it to the receiver's. */
  lemma TwoWritesShiftTeams(rows: Table, senderId: DiscordId, receiverId: DiscordId, amount: int, team: string)
    requires senderId != receiverId && Single(rows, senderId).Some? && Single(rows, receiverId).Some?
    ensures var sender, receiver := Single(rows, senderId).value, Single(rows, receiverId).value;
            TeamPoints(SetPoints(SetPoints(rows, senderId, sender.points - amount), receiverId, receiver.points + amount), team)
            == TeamPoints(rows, team)
               - (if sender.team == Some(team) then amount else 0)
               + (if receiver.team == Some(team) then amount else 0)
  {
    var sender, receiver := Single(rows, senderId).value, Single(rows, receiverId).value;
    var debited := SetPoints(rows, senderId, sender.points - amount);
    assert TeamPoints(debited, team) == TeamPoints(rows, team) - (if sender.team == Some(team) then amount else 0) by {
      TeamPointsSetPoints(rows, senderId, sender.points - amount, team);
    }
    assert Single(debited, receiverId) == Some(receiver) by {
      SingleAfterSetPoints(rows, senderId, sender.points - amount, receiverId);
    }
    TeamPointsSetPoints(debited, receiverId, receiver.points + amount, team);
  }

  /** A successful transfer between two different users takes `amount` out
      of the sender's team sum and adds it to the receiver's: a transfer
      across teams can change which team leads. */
  lemma TransferShiftsTeams(rows: Table, callerId: DiscordId, caller: MemberView,
                            receiverId: DiscordId, amount: int, fault: WriteFault, team: string)
    requires TransferResult(rows, callerId, caller, Some(receiverId), amount, fault).0 == Transferred
    requires callerId != receiverId
    ensures TeamPoints(TransferResult(rows, callerId, caller, Some(receiverId), amount, fault).1, team)
            == TeamPoints(rows, team)
               - (if Single(rows, callerId).value.team == Some(team) then amount else 0)
               + (if Single(rows, receiverId).value.team == Some(team) then amount else 0)
  {
    assert TransferResult(rows, callerId, caller, Some(receiverId), amount, fault).1
        == SetPoints(SetPoints(rows, callerId, Single(rows, callerId).value.points - amount), receiverId,
                     Single(rows, receiverId).value.points + amount);
    TwoWritesShiftTeams(rows, callerId, receiverId, amount, team);
  }

  /** Every refusal before the first write leaves the table as it was; only
      a rejected second write leaves a change behind. A transfer goes through
      exactly when the caller is an admin, the amount is non-zero, both rows
      are readable, the sender can cover the amount and no write fails. */
  lemma TransferFailurePolicy(rows: Table, callerId: DiscordId, caller: MemberView,
                              target: Option<DiscordId>, amount: int, fault: WriteFault)
    ensures var (outcome, after) := TransferResult(rows, callerId, caller, target, amount, fault);
            && (outcome.TransferRejected? && outcome.reason != ReceiverUpdateFailed ==> after == rows)
            && (outcome == Transferred <==>
                  HasAdminRole(caller) && target.Some? && amount != 0
                  && Single(rows, callerId).Some? && Single(rows, callerId).value.points >= amount
                  && Single(rows, target.value).Some?
                  && fault != FailsAt(0) && fault != FailsAt(1))
  {
  }

  /** Two writes to the single row of `id`, the second computed from the
      balance read before the first: the row ends at `old + amount`, and the
      sum of all balances grows by `amount`. */
  lemma SelfWrites(rows: Table, id: DiscordId, amount: int)
    requires Single(rows, id).Some?
    ensures var u := Single(rows, id).value;
            var after := SetPoints(SetPoints(rows, id, u.points - amount), id, u.points + amount);
            && Single(after, id) == Some(u.(points := u.points + amount))
            && Total(after) == Total(rows) + amount
  {
    var u := Single(rows, id).value;
    var debited := SetPoints(rows, id, u.points - amount);
    assert Single(debited, id) == Some(u.(points := u.points - amount)) by {
      SingleAfterSetPoints(rows, id, u.points - amount, id);
    }
    assert Total(debited) == Total(rows) - amount by {
      TotalSetPoints(rows, id, u.points - amount);
    }
    TotalSetPoints(debited, id, u.points + amount);
    SingleAfterSetPoints(debited, id, u.points + amount, id);
  }

  /** Finding: a self-transfer mints `amount`. The receiver's new balance is
      computed from the balance read before the sender's write, so the second
      write overwrites the debit. */
  lemma SelfTransferMints(rows: Table, callerId: DiscordId, caller: MemberView, amount: int, fault: WriteFault)
    requires TransferResult(rows, callerId, caller, Some(callerId), amount, fault).0 == Transferred
    ensures var after := TransferResult(rows, callerId, caller, Some(callerId), amount, fault).1;
            && Single(after, callerId).Some?
            && Single(after, callerId).value.points == Single(rows, callerId).value.points + amount
            && Total(after) == Total(rows) + amount
  {
    var u := Single(rows, callerId).value;
    assert TransferResult(rows, callerId, caller, Some(callerId), amount, fault).1
        == SetPoints(SetPoints(rows, callerId, u.points - amount), callerId, u.points + amount);
    SelfWrites(rows, callerId, amount);
  }

  /** Two rows with ids "a" and "b": each id is held by one row. */
  lemma TwoRowLookup(rows: Table)
    requires |rows| == 2 && rows[0].discordId == Some("a") && rows[1].discordId == Some("b")
    ensures Single(rows, "a") == Some(rows[0]) && Single(rows, "b") == Some(rows[1])
  {
    assert "a" != "b" by {
      assert "a"[0] != "b"[0];
    }
    var tail := rows[1..];
    assert tail[0] == rows[1] && tail[1..] == [];
    assert HasId(tail[0], "b") && !HasId(tail[0], "a");
    assert Count(tail[1..], "a") == 0 && Count(tail[1..], "b") == 0;
    assert Count(tail, "a") == 0 && Count(tail, "b") == 1 && IndexOf(tail, "b") == 0;
    assert Count(rows, "a") == 1 && IndexOf(rows, "a") == 0;
    assert Count(rows, "b") == 1 && IndexOf(rows, "b") == 1;
  }

  /** Finding: a negative amount passes the falsy check. A transfer of -50
      from a user holding 100 to one holding 30 goes through and leaves the
      receiver at -20. */
  lemma NegativeAmountAccepted()
    ensures var rows := [User(Some("a"), "0xaaaa", 100, Some(BULLAS)),
                         User(Some("b"), "0xbbbb", 30, Some(BULLAS))];
            var (outcome, after) := TransferResult(rows, "a", GuildMember({ADMIN_ROLE_IDS[0]}), Some("b"), -50, NoFault);
            && outcome == Transferred
            && Single(after, "b") == Some(User(Some("b"), "0xbbbb", -20, Some(BULLAS)))
            && !AllNonNegative(after)
  {
    var rows := [User(Some("a"), "0xaaaa", 100, Some(BULLAS)),
                 User(Some("b"), "0xbbbb", 30, Some(BULLAS))];
    var admin := GuildMember({ADMIN_ROLE_IDS[0]});
    assert HasAdminRole(admin);
    TwoRowLookup(rows);
    TransferConserves(rows, "a", admin, "b", -50, NoFault);
    var after := TransferResult(rows, "a", admin, Some("b"), -50, NoFault).1;
    var k := SingleAt(after, "b");
  }

  /** Finding: the two writes are not atomic. When the store rejects the
      receiver's write, the sender has already been debited and `amount`
      points have left the table. */
  lemma SecondWriteFailureLosesPoints(rows: Table, callerId: DiscordId, caller: MemberView,
                                      receiverId: DiscordId, amount: int)
    requires TransferResult(rows, callerId, caller, Some(receiverId), amount, NoFault).0 == Transferred
    ensures var (outcome, after) := TransferResult(rows, callerId, caller, Some(receiverId), amount, FailsAt(1));
            && outcome == TransferRejected(ReceiverUpdateFailed)
            && Single(after, callerId) == Some(Single(rows, callerId).value.(points := Single(rows, callerId).value.points - amount))
            && Total(after) == Total(rows) - amount
  {
    var sender := Single(rows, callerId).value;
    var debited := SetPoints(rows, callerId, sender.points - amount);
    assert TransferResult(rows, callerId, caller, Some(receiverId), amount, FailsAt(1))
           == (TransferRejected(ReceiverUpdateFailed), debited);
    TotalSetPoints(rows, callerId, sender.points - amount);
    SingleAfterSetPoints(rows, callerId, sender.points - amount, callerId);
  }

  /** The corrected transfer: only a positive, covered amount between two
      readable rows moves, a self-transfer changes nothing, and both rows
      change in one write (write 0), which the store may reject as a whole. */
  function SafeTransfer(rows: Table, senderId: DiscordId, receiverId: DiscordId, amount: int,
                        fault: WriteFault): (TransferOutcome, Table)
  {
    if amount <= 0 then (TransferRejected(InvalidInput), rows)
    else match Single(rows, senderId)
      case None => (TransferRejected(SenderFetchFailed), rows)
      case Some(sender) =>
        if sender.points < amount then (TransferRejected(InsufficientPoints), rows)
        else match Single(rows, receiverId)
          case None => (TransferRejected(ReceiverFetchFailed), rows)
          case Some(receiver) =>
            if senderId == receiverId then (Transferred, rows)
            else if fault == FailsAt(0) then (TransferRejected(UpdateFailed), rows)
            else (Transferred, SetPoints(SetPoints(rows, senderId, sender.points - amount), receiverId, receiver.points + amount))
  }

  /** The corrected transfer, for every input:
      a refusal writes nothing, a rejected write included, so both balances
      change or neither does; it goes through exactly when the amount is
      positive, both rows are readable, the sender can cover it and the write
      is accepted (a self-transfer writes nothing); a success
      keeps the sum of all balances (self-transfer included) and never makes
      a balance negative; between two users it moves exactly `amount`. */
  lemma SafeTransferConserves(rows: Table, senderId: DiscordId, receiverId: DiscordId, amount: int, fault: WriteFault)
    ensures var (outcome, after) := SafeTransfer(rows, senderId, receiverId, amount, fault);
            && (outcome.TransferRejected? ==> after == rows)
            && (fault == FailsAt(0) ==> after == rows)
            && (outcome == Transferred <==>
                  amount > 0 && Single(rows, senderId).Some? && Single(rows, receiverId).Some?
                  && Single(rows, senderId).value.points >= amount
                  && (senderId == receiverId || fault != FailsAt(0)))
            && (outcome == Transferred ==> Total(after) == Total(rows))
            && (outcome == Transferred && AllNonNegative(rows) ==> AllNonNegative(after))
            && (outcome == Transferred && senderId != receiverId ==>
                  && Single(after, senderId).Some? && Single(after, receiverId).Some?
                  && Single(after, senderId).value.points == Single(rows, senderId).value.points - amount
                  && Single(after, receiverId).value.points == Single(rows, receiverId).value.points + amount)
  {
    var (outcome, after) := SafeTransfer(rows, senderId, receiverId, amount, fault);
    if outcome == Transferred && senderId != receiverId {
      var sender, receiver := Single(rows, senderId).value, Single(rows, receiverId).value;
      assert after == SetPoints(SetPoints(rows, senderId, sender.points - amount), receiverId, receiver.points + amount);
      TwoWritesMove(rows, senderId, receiverId, amount);
      if AllNonNegative(rows) {
        TwoWritesNonNegative(rows, senderId, receiverId, amount);
      }
    }
  }

  /** Two writes that take a covered, positive amount from one single row and
      add it to another keep every balance non-negative. */
  lemma TwoWritesNonNegative(rows: Table, senderId: DiscordId, receiverId: DiscordId, amount: int)
    requires senderId != receiverId && Single(rows, senderId).Some? && Single(rows, receiverId).Some?
    requires AllNonNegative(rows) && 0 < amount <= Single(rows, senderId).value.points
    ensures AllNonNegative(SetPoints(SetPoints(rows, senderId, Single(rows, senderId).value.points - amount),
                                     receiverId, Single(rows, receiverId).value.points + amount))
  {
    var sender, receiver := Single(rows, senderId).value, Single(rows, receiverId).value;
    var debited := SetPoints(rows, senderId, sender.points - amount);
    assert receiver.points >= 0 by {
      var kr := SingleAt(rows, receiverId);
    }
    assert AllNonNegative(debited) by {
      NonNegativeSetPoints(rows, senderId, sender.points - amount);
    }
    NonNegativeSetPoints(debited, receiverId, receiver.points + amount);
  }

  /** A successful fine: the new balance is the old one less `amount` and
      never negative, and only the fined row changes. */
  lemma FineTakesAmount(rows: Table, caller: MemberView, targetId: DiscordId, amount: int, fault: WriteFault)
    returns (k: nat)
    requires FineResult(rows, caller, Some(targetId), amount, fault).0.Fined?
    ensures var (outcome, after) := FineResult(rows, caller, Some(targetId), amount, fault);
            && k < |rows| && HasId(rows[k], targetId)
            && outcome.newBalance == rows[k].points - amount >= 0
            && after == rows[k := rows[k].(points := rows[k].points - amount)]
  {
    var u := Single(rows, targetId).value;
    k := UpdateSingle(rows, targetId, u.points - amount);
    var j := SingleAt(rows, targetId);
  }

  /** The fined amount leaves the table and the fined user's team sum, and a
      fine never makes a balance negative. */
  lemma FineRemovesPoints(rows: Table, caller: MemberView, targetId: DiscordId, amount: int,
                          fault: WriteFault, team: string)
    requires FineResult(rows, caller, Some(targetId), amount, fault).0.Fined?
    ensures var after := FineResult(rows, caller, Some(targetId), amount, fault).1;
            && Total(after) == Total(rows) - amount
            && TeamPoints(after, team)
               == TeamPoints(rows, team) - (if Single(rows, targetId).value.team == Some(team) then amount else 0)
            && (AllNonNegative(rows) ==> AllNonNegative(after))
  {
    var u := Single(rows, targetId).value;
    var after := SetPoints(rows, targetId, u.points - amount);
    assert FineResult(rows, caller, Some(targetId), amount, fault).1 == after;
    assert Total(after) == Total(rows) - amount by {
      TotalSetPoints(rows, targetId, u.points - amount);
    }
    assert TeamPoints(after, team) == TeamPoints(rows, team) - (if u.team == Some(team) then amount else 0) by {
      TeamPointsSetPoints(rows, targetId, u.points - amount, team);
    }
    if AllNonNegative(rows) {
      NonNegativeSetPoints(rows, targetId, u.points - amount);
    }
  }

  /** A fine is refused, with no write, when the caller is not an admin, the
      target or a positive amount is missing, the target's row cannot be
      read, the balance is below the amount, or the store rejects the write;
      otherwise it goes through. */
  lemma FineFailurePolicy(rows: Table, caller: MemberView, target: Option<DiscordId>, amount: int, fault: WriteFault)
    ensures var (outcome, after) := FineResult(rows, caller, target, amount, fault);
            && (outcome.FineRejected? ==> after == rows)
            && (outcome.Fined? <==>
                  HasAdminRole(caller) && target.Some? && amount > 0
                  && Single(rows, target.value).Some? && Single(rows, target.value).value.points >= amount
                  && fault != FailsAt(0))
  {
  }

  /** The `users` table as the two handlers change it. */
  class UsersTable {
    var rows: Table

    constructor (initial: Table)
      ensures rows == initial
    {
      rows := initial;
    }

    /** The `/transfer` handler: read the sender, check the balance, read the
        receiver, then write the sender's and the receiver's new balances, in
        that order. */
    method Transfer(callerId: DiscordId, caller: MemberView, target: Option<DiscordId>,
                    amount: int, fault: WriteFault) returns (outcome: TransferOutcome)
      modifies this
      ensures (outcome, rows) == TransferResult(old(rows), callerId, caller, target, amount, fault)
    {
      if !HasAdminRole(caller) {
        return TransferRejected(NoPermission);
      }
      if target.None? || amount == 0 {
        return TransferRejected(InvalidInput);
      }
      var senderData := Single(rows, callerId);
      if senderData.None? {
        return TransferRejected(SenderFetchFailed);
      }
      if senderData.value.points < amount {
        return TransferRejected(InsufficientPoints);
      }
      var receiverData := Single(rows, target.value);
      if receiverData.None? {
        return TransferRejected(ReceiverFetchFailed);
      }
      var updatedSenderPoints := senderData.value.points - amount;
      var updatedReceiverPoints := receiverData.value.points + amount;
      if fault == FailsAt(0) {
        return TransferRejected(SenderUpdateFailed);
      }
      rows := SetPoints(rows, callerId, updatedSenderPoints);
      if fault == FailsAt(1) {
        return TransferRejected(ReceiverUpdateFailed);
      }
      rows := SetPoints(rows, target.value, updatedReceiverPoints);
      outcome := Transferred;
    }

    /** The `/fine` handler: read the target, check the balance, write the
        reduced balance. No balance goes negative. */
    method Fine(caller: MemberView, target: Option<DiscordId>, amount: int, fault: WriteFault)
      returns (outcome: FineOutcome)
      modifies this
      ensures (outcome, rows) == FineResult(old(rows), caller, target, amount, fault)
      ensures AllNonNegative(old(rows)) ==> AllNonNegative(rows)
    {
      if !HasAdminRole(caller) {
        return FineRejected(NoPermission);
      }
      if target.None? || amount <= 0 {
        return FineRejected(InvalidInput);
      }
      var userData := Single(rows, target.value);
      if userData.None? {
        return FineRejected(TargetFetchFailed);
      }
      if userData.value.points < amount {
        return FineRejected(InsufficientPoints);
      }
      var updatedPoints := userData.value.points - amount;
      if fault == FailsAt(0) {
        return FineRejected(UpdateFailed);
      }
      if AllNonNegative(rows) {
        NonNegativeSetPoints(rows, target.value, updatedPoints);
      }
      rows := SetPoints(rows, target.value, updatedPoints);
      outcome := Fined(updatedPoints);
    }
  }
}
