/** Whole histories of uploads: pruning after each one, with deletes cut short at will, keeps what a
    single plan over the complete history keeps. */
module RetentionHistory {
  import opened BackupRetention
  import opened OwnerBackupStore

  datatype Upload = Upload(backup: Backup, completed: bool)

  ghost function History(uploads: seq<Upload>): set<Backup> {
    set i | 0 <= i < |uploads| :: uploads[i].backup
  }

  /** The store contents after every upload that landed. */
  ghost predicate Run(uploads: seq<Upload>, stores: seq<set<Backup>>) {
    && |stores| == |uploads| + 1
    && stores[0] == {}
    && forall i :: 0 <= i < |uploads| ==> PutStep(stores[i], uploads[i].backup, stores[i + 1], uploads[i].completed)
  }

  lemma HistoryStep(uploads: seq<Upload>)
    requires uploads != []
    ensures var last := |uploads| - 1; History(uploads) == History(uploads[..last]) + {uploads[last].backup}
  {
    var last := |uploads| - 1;
    forall b | b in History(uploads) ensures b in History(uploads[..last]) + {uploads[last].backup} {
      var i :| 0 <= i < |uploads| && uploads[i].backup == b;
      if i < last { assert uploads[..last][i].backup == b; }
    }
    forall b | b in History(uploads[..last]) ensures b in History(uploads) {
      var i :| 0 <= i < last && uploads[..last][i].backup == b;
      assert uploads[i].backup == b;
    }
  }

  /** Online equals offline, for uploads in any order of time: at every moment the store lies between
      what one plan over the whole history keeps and the history, and after a prune that completes it
      is exactly what that plan keeps. */
  lemma {:induction false} OnlineEqualsOffline(uploads: seq<Upload>, stores: seq<set<Backup>>)
    requires Run(uploads, stores) && UniqueKeys(History(uploads))
    ensures var n := |uploads|;
      && Keep(History(uploads)) <= stores[n] <= History(uploads)
      && (n > 0 && uploads[n - 1].completed ==> stores[n] == Keep(History(uploads)))
    decreases |uploads|
  {
    if uploads == [] {
      assert History(uploads) == {};
      KeepIsSubset(History(uploads));
    } else {
      var last := |uploads| - 1;
      var h, x := History(uploads[..last]), uploads[last].backup;
      HistoryStep(uploads);
      hide Keep, History;
      OnlineEqualsOffline(uploads[..last], stores[..last + 1]);
      var store := stores[last];
      KeepInSubset(h + {x}, h);
      // An object kept from the longer history was already kept from the shorter one.
      assert Keep(h + {x}) <= store + {x} <= h + {x} by { KeepIsSubset(h + {x}); }
      ReplanStable(h + {x}, store + {x});
      assert PutStep(store, x, stores[last + 1], uploads[last].completed);
    }
  }

  /** No object of the same group is newer; of two of the same instant the one with the smaller key is. */
  ghost predicate NewestOf(s: set<Backup>, b: Backup, group: Grouping) {
    forall o :: o in s && group(o) == group(b) ==>
      o.uploadedAt < b.uploadedAt || (o.uploadedAt == b.uploadedAt && b.key.rank <= o.key.rank)
  }

  ghost predicate LaterGroup(s: set<Backup>, group: Grouping, g: int, later: int) {
    later > g && exists o :: o in s && group(o) == later
  }

  /** What is kept: the newest object of each of the 30 latest days and of each of the 12 latest months,
      where `days` and `months` are those after the object's own, and nothing else. */
  lemma KeptExactly(s: set<Backup>, b: Backup, days: set<int>, months: set<int>)
    requires UniqueKeys(s) && b in s
    requires forall d :: d in days <==> LaterGroup(s, o => Day(o), Day(b), d)
    requires forall m :: m in months <==> LaterGroup(s, o => Month(o), Month(b), m)
    ensures b in Keep(s) <==>
      || (NewestOf(s, b, o => Day(o)) && |days| < 30)
      || (NewestOf(s, b, o => Month(o)) && |months| < 12)
  {
    assert days == Above(Groups(s, Day), Day(b));
    assert months == Above(Groups(s, Month), Month(b));
  }

  /** No delete is ever regretted: an object missing from the store at some moment is kept by no later
      plan over the history. */
  lemma DeletesAreFinal(uploads: seq<Upload>, stores: seq<set<Backup>>, i: nat, b: Backup)
    requires Run(uploads, stores) && UniqueKeys(History(uploads))
    requires i <= |uploads| && b in History(uploads[..i]) && b !in stores[i]
    ensures b !in Keep(History(uploads))
  {
    var early, all := History(uploads[..i]), History(uploads);
    forall o | o in early ensures o in all {
      var k :| 0 <= k < i && uploads[..i][k].backup == o;
      assert uploads[k].backup == o;
    }
    OnlineEqualsOffline(uploads[..i], stores[..i + 1]);
    KeepInSubset(all, early);
  }

  /** What a completed `put` leaves behind: at most 41 objects and at most 10^9 bytes. */
  lemma CompletedPutBounds(before: set<Backup>, x: Backup, now: int, after: set<Backup>)
    requires Accepts(before, x, now) && PutStep(before, x, after, true)
    ensures Bytes(after) <= BYTE_CEILING && |after| <= 41
  {
    KeepBounded(before + {x});
  }
}
