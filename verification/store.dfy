/**
 * The progress store: the hook's state cells and its debounced write-behind.
 *
 * Time is abstracted away. The single timer handle is `pending`: `Some(s)` while a
 * save is scheduled, where `s` is the document the timer's closure captured. A
 * mutation cancels that save and schedules a new one; `Fire` is the timer running
 * out; `Unmount` is the effect cleanup when the component goes away. Successful
 * writes of this store are recorded, in order, in `writes`.
 */
module ProgressStore {
  import opened Wrappers
  import opened Progress

  class Store {
    var progress: ProgressData
    var mounted: bool
    var pending: Option<ProgressData>
    var disposed: bool
    var writes: seq<ProgressData>

    /**
     * Nothing is scheduled before mounting or after unmounting, and the scheduled
     * save always holds the current document (every change reschedules it).
     */
    ghost predicate Valid()
      reads this
    {
      pending.Some? ==> mounted && !disposed && pending.value == progress
    }

    /** The hook's initial state: an empty document, not mounted, no timer. */
    constructor ()
      ensures Valid()
      ensures progress == map[] && !mounted && pending == None && !disposed && writes == []
    {
      progress := map[];
      mounted := false;
      pending := None;
      disposed := false;
      writes := [];
    }

    /**
     * The mount effect with a `window` present. `stored` is the parsed saved
     * document; `None` stands for no saved entry, an empty one, a parse failure or a
     * `localStorage` that throws on access, and keeps the current document. Becoming
     * mounted re-runs the save effect, which schedules a save.
     */
    method Mount(stored: Option<ProgressData>)
      requires Valid() && !mounted && !disposed
      modifies this
      ensures Valid()
      ensures progress == stored.GetOr(old(progress))
      ensures mounted && !disposed && writes == old(writes)
      ensures pending == Some(progress)
    {
      if stored.Some? {
        progress := stored.value;
      }
      mounted := true;
      pending := Some(progress);
    }

    /**
     * `setProgress(next)` followed by the save effect: cancel the scheduled save
     * and, once mounted, schedule a new one holding `next`. After unmounting a
     * state update is ignored.
     */
    method Commit(next: ProgressData)
      requires Valid()
      modifies this
      ensures Valid()
      ensures mounted == old(mounted) && disposed == old(disposed) && writes == old(writes)
      ensures progress == if disposed then old(progress) else next
      ensures pending == if mounted && !disposed then Some(next) else None
    {
      if !disposed {
        progress := next;
        if mounted {
          pending := Some(next);
        }
      }
    }

    method ToggleTopic(domain: string, levelId: string, topicId: string)
      requires Valid()
      modifies this
      ensures Valid()
      ensures mounted == old(mounted) && disposed == old(disposed) && writes == old(writes)
      ensures progress == if disposed then old(progress) else Progress.ToggleTopic(old(progress), domain, levelId, topicId)
      ensures pending == if mounted && !disposed then Some(progress) else None
    {
      Commit(Progress.ToggleTopic(progress, domain, levelId, topicId));
    }

    method ToggleResource(domain: string, levelId: string, resourceId: string)
      requires Valid()
      modifies this
      ensures Valid()
      ensures mounted == old(mounted) && disposed == old(disposed) && writes == old(writes)
      ensures progress == if disposed then old(progress) else Progress.ToggleResource(old(progress), domain, levelId, resourceId)
      ensures pending == if mounted && !disposed then Some(progress) else None
    {
      Commit(Progress.ToggleResource(progress, domain, levelId, resourceId));
    }

    method CompleteLevel(domain: string, levelId: string)
      requires Valid()
      modifies this
      ensures Valid()
      ensures mounted == old(mounted) && disposed == old(disposed) && writes == old(writes)
      ensures progress == if disposed then old(progress) else Progress.CompleteLevel(old(progress), domain, levelId)
      ensures pending == if mounted && !disposed then Some(progress) else None
    {
      Commit(Progress.CompleteLevel(progress, domain, levelId));
    }

    /**
     * The debounce timer runs out: write the captured document (which is the
     * current one) and clear the handle. A failed write is dropped and leaves the
     * document as it is. With nothing scheduled nothing happens.
     */
    method Fire(writeSucceeds: bool)
      requires Valid()
      modifies this
      ensures Valid()
      ensures pending == None
      ensures progress == old(progress) && mounted == old(mounted) && disposed == old(disposed)
      ensures writes == if old(pending).Some? && writeSucceeds then old(writes) + [old(progress)] else old(writes)
    {
      if pending.Some? {
        if writeSucceeds {
          writes := writes + [pending.value];
        }
        pending := None;
      }
    }

    /** The effect cleanup on unmount: cancel the scheduled save without writing. */
    method Unmount()
      requires Valid()
      modifies this
      ensures Valid()
      ensures disposed && pending == None
      ensures progress == old(progress) && mounted == old(mounted) && writes == old(writes)
    {
      pending := None;
      disposed := true;
    }
  }

  /** What a fresh store holds once mounted: the stored document, or `{}` when there is none. */
  method LoadedDocument(stored: Option<ProgressData>) returns (loaded: ProgressData, scheduled: bool)
    ensures loaded == stored.GetOr(map[])
    ensures stored.None? ==> loaded == map[]
    ensures scheduled
  {
    var s := new Store();
    s.Mount(stored);
    loaded := s.progress;
    scheduled := s.pending.Some?;
  }

  /**
   * Three toggles with no timer expiry between them, on any three keys, are written
   * once, and what is written is the document after the third; no intermediate
   * document is written.
   */
  method CoalescedBurst(d1: string, l1: string, t1: string,
                        d2: string, l2: string, t2: string,
                        d3: string, l3: string, t3: string)
    returns (saved: seq<ProgressData>)
    ensures saved == [Progress.ToggleTopic(Progress.ToggleTopic(Progress.ToggleTopic(map[], d1, l1, t1), d2, l2, t2), d3, l3, t3)]
  {
    var s := new Store();
    s.Mount(None);
    s.ToggleTopic(d1, l1, t1);
    s.ToggleTopic(d2, l2, t2);
    s.ToggleTopic(d3, l3, t3);
    s.Fire(true);
    saved := s.writes;
  }

  /** A failed write does not stop the next toggle from taking effect, and writes nothing. */
  method FailedWriteIsolated(domain: string, levelId: string, topicId: string)
    returns (completed: bool, saved: seq<ProgressData>)
    ensures completed && saved == []
  {
    var s := new Store();
    s.Mount(None);
    s.Fire(false);
    s.ToggleTopic(domain, levelId, topicId);
    completed := IsTopicCompleted(s.progress, domain, levelId, topicId);
    saved := s.writes;
  }

  /** Unmounting inside the debounce window loses the edit: nothing is ever written. */
  method UnmountDropsPendingSave(domain: string, levelId: string, topicId: string)
    returns (saved: seq<ProgressData>, scheduled: bool)
    ensures saved == [] && !scheduled
  {
    var s := new Store();
    s.Mount(None);
    s.ToggleTopic(domain, levelId, topicId);
    s.Unmount();
    s.Fire(true);
    saved := s.writes;
    scheduled := s.pending.Some?;
  }

  /** A toggle made before mounting schedules nothing, and survives a mount with no stored document. */
  method ToggleBeforeMount(domain: string, levelId: string, topicId: string)
    returns (scheduledBefore: bool, completedAfterMount: bool)
    ensures !scheduledBefore && completedAfterMount
  {
    var s := new Store();
    s.ToggleTopic(domain, levelId, topicId);
    scheduledBefore := s.pending.Some?;
    s.Mount(None);
    completedAfterMount := IsTopicCompleted(s.progress, domain, levelId, topicId);
  }
}
