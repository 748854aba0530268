/** `PlatformListener`: turns MySQL foreign-key checks off before the tables
    are truncated and back on afterwards. */
module PlatformListeners {
  import opened Wrappers
  import opened World

  /** The two events the listener subscribes to. */
  datatype TruncateEvent = PreTruncate | PostTruncate

  function EventName(e: TruncateEvent): (name: string)
    ensures name == "preTruncate" <==> e.PreTruncate?
    ensures name == "postTruncate" <==> e.PostTruncate?
  {
    match e
    case PreTruncate => "preTruncate"
    case PostTruncate => "postTruncate"
  }

  /** `getSubscribedEvents`. */
  function SubscribedEvents(): (events: seq<string>)
    ensures |events| == 2
    ensures forall n :: n in events <==> exists e: TruncateEvent :: EventName(e) == n
  {
    assert EventName(PreTruncate) == "preTruncate" && EventName(PostTruncate) == "postTruncate";
    [EventName(PreTruncate), EventName(PostTruncate)]
  }

  /** The statement each event runs on a MySQL connection. */
  function ForeignKeyChecks(e: TruncateEvent): string {
    match e
    case PreTruncate => "SET foreign_key_checks = 0;"
    case PostTruncate => "SET foreign_key_checks = 1;"
  }

  /** What handling `e` does: an object manager that is not an entity
      manager throws; on a MySQL platform the foreign-key statement is
      executed; on any other platform nothing happens. */
  function Effect(e: TruncateEvent, isEntityManager: bool, platform: Platform): (r: Result<seq<Action>, Error>)
    ensures r.Failure? <==> !isEntityManager
    ensures r.Failure? ==> r.error == RuntimeException("The object manager is not an entity manager.")
    ensures r.Success? && platform.isMySql ==> r.value == [Exec(ForeignKeyChecks(e))]
    ensures r.Success? && !platform.isMySql ==> r.value == []
  {
    if !isEntityManager then Failure(RuntimeException("The object manager is not an entity manager."))
    else if platform.isMySql then Success([Exec(ForeignKeyChecks(e))])
    else Success([])
  }

  /** Checks are turned off before truncation and on again after it, and
      only on MySQL. */
  lemma TruncationBracketed(platform: Platform)
    ensures platform.isMySql ==>
      Effect(PreTruncate, true, platform).value + Effect(PostTruncate, true, platform).value
      == [Exec("SET foreign_key_checks = 0;"), Exec("SET foreign_key_checks = 1;")]
    ensures !platform.isMySql ==>
      Effect(PreTruncate, true, platform).value + Effect(PostTruncate, true, platform).value == []
  {
  }

  /** `preTruncate` and `postTruncate`: the listener runs its statement on
      the connection of the event's object manager. */
  method Handle(e: TruncateEvent, isEntityManager: bool, platform: Platform, host: Host) returns (r: Outcome<Error>)
    modifies host`log
    ensures var eff := Effect(e, isEntityManager, platform);
      && (eff.Failure? ==> r == Fail(eff.error) && host.log == old(host.log))
      && (eff.Success? ==> r == Pass && host.log == old(host.log) + eff.value)
    ensures host.files == old(host.files) && host.declared == old(host.declared)
    ensures host.subscribers == old(host.subscribers)
  {
    if !isEntityManager {
      return Fail(RuntimeException("The object manager is not an entity manager."));
    }
    if platform.isMySql {
      host.Record(Exec(ForeignKeyChecks(e)));
    }
    return Pass;
  }
}
