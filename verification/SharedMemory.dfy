/** The shared memory object: one word and a binary semaphore (glb_shm_obj.c).  The functions say what
    each statement of the object does; the state machines of the processes that share the object take
    them one at a time, and the class takes them one after the other. */
module SharedMemory {
  import opened Basics

  datatype Shm = Shm(sem: int, word: int)

  /** create_glb_data */
  const Created := Shm(1, 0)

  /** sem_wait on a semaphore with this value; no result: the caller has to wait. */
  function Waited(sem: int): Option<int> {
    if sem > 0 then Some(sem - 1) else None
  }

  function Signalled(sem: int): int {
    sem + 1
  }

  /** incGlbConcurryLvlCb and updateGlbRequestCntCb */
  function Incremented(v: int): int {
    v + 1
  }

  /** decGlbConcurryLvlCb */
  function Decremented(v: int): int {
    v - 1
  }

  /** A whole write_glb_data. */
  function AfterWrite(m: Shm, data: int): Shm {
    m.(word := data)
  }

  /** A whole update_glb_data. */
  function AfterUpdate(m: Shm, callback: int -> int): Shm {
    m.(word := callback(m.word))
  }

  /** One process alone with the object.  `entered` is false when the semaphore is taken: the process
      waits, and has not done anything yet. */
  class GlbShm {
    var sem: int
    var word: int

    ghost function View(): Shm
      reads this
    {
      Shm(sem, word)
    }

    constructor ()
      ensures View() == Created
    {
      sem := 1;
      word := 0;
    }

    method SemWait() returns (entered: bool)
      modifies this`sem
      ensures entered <==> Waited(old(sem)).Some?
      ensures sem == if entered then Waited(old(sem)).value else old(sem)
    {
      if sem <= 0 {
        return false;
      }
      sem := sem - 1;
      return true;
    }

    method SemSignal()
      modifies this`sem
      ensures sem == Signalled(old(sem))
    {
      sem := sem + 1;
    }

    method WriteGlbData(data: int) returns (entered: bool)
      modifies this
      ensures entered <==> Waited(old(sem)).Some?
      ensures View() == if entered then AfterWrite(old(View()), data) else old(View())
    {
      entered := SemWait();
      if entered {
        word := data;
        SemSignal();
      }
    }

    method ReadGlbData() returns (entered: bool, data: int)
      modifies this`sem
      ensures entered <==> Waited(old(sem)).Some?
      ensures View() == old(View())
      ensures entered ==> data == word
    {
      data := 0;
      entered := SemWait();
      if entered {
        data := word;
        SemSignal();
      }
    }

    /** The callback changes a copy of the word, which is then copied back. */
    method UpdateGlbData(callback: int -> int) returns (entered: bool, data: int)
      modifies this
      ensures entered <==> Waited(old(sem)).Some?
      ensures View() == if entered then AfterUpdate(old(View()), callback) else old(View())
      ensures entered ==> data == word
    {
      data := 0;
      entered := SemWait();
      if entered {
        data := word;
        data := callback(data);
        word := data;
        SemSignal();
      }
    }
  }
}
