/** The single datastore handle (ndb.py, setDatastore and closeDatastore): at most one
    datastore is open at a time. Reading the field `datastore` stands for getDatastore. */
module Registry {
  import opened Results
  import opened MemStore
  import opened Models

  class Handle {
    var datastore: Option<MemDatastore<Record>>

    /** The module starts with no datastore open. */
    constructor ()
      ensures datastore == None
    {
      datastore := None;
    }

    /** setDatastore: opening while a datastore is open raises ValueError and keeps the open one. */
    method SetDatastore(d: MemDatastore<Record>) returns (r: Result<()>)
      modifies this
      ensures old(datastore).Some? ==> r == Err(AlreadyOpen) && datastore == old(datastore)
      ensures old(datastore).None? ==> r == Ok(()) && datastore == Some(d)
    {
      if datastore.Some? {
        return Err(AlreadyOpen);
      }
      datastore := Some(d);
      r := Ok(());
    }

    /** closeDatastore: closes the open datastore, if any (MemDatastore.close does nothing),
        and leaves none open; closing again changes nothing. */
    method CloseDatastore()
      modifies this
      ensures datastore == None
    {
      datastore := None;
    }
  }
}
