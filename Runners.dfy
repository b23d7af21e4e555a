/**
 * The command-line runners: the configuration check and the exit code of `run`.  There
 * are two: `ws.slink.DocProcessorApplicationRunner` (a directory or delete-all) and
 * `com.dxfeed.DocProcessorApplicationRunner` (also a single `file`, a `test` mode that
 * only renders one file, and a client that may have failed to initialise).
 *
 * An exit code of `None` means an exception escaped the processor before `System.exit`
 * was reached.  Printing the usage text and the summary is not modelled.
 */
module Runners {
  import opened Wrappers
  import opened JavaText
  import opened Remote
  import opened Tools
  import opened Walk
  import opened Processing

  /** The options `run` consults (`AppConfig`). */
  datatype AppConfig = AppConfig(url: string, user: string, token: string, dir: string, file: string,
                                 test: string, deleteAll: bool)

  /** url, user and token are all given or none is. */
  predicate CredentialsAllOrNone(c: AppConfig) {
    (IsBlank(c.url) && IsBlank(c.user) && IsBlank(c.token))
    || (!IsBlank(c.url) && !IsBlank(c.user) && !IsBlank(c.token))
  }

  /** `checkConfiguration()` of `ws.slink`: no credential may be given without the other
      two, and there must be a directory unless everything is to be deleted. */
  function CheckConfiguration(c: AppConfig): (ok: bool)
    ensures ok <==> CredentialsAllOrNone(c) && (!IsBlank(c.dir) || c.deleteAll)
  {
    !(   (!IsBlank(c.url) && (IsBlank(c.user) || IsBlank(c.token)))
      || (!IsBlank(c.user) && (IsBlank(c.url) || IsBlank(c.token)))
      || (!IsBlank(c.token) && (IsBlank(c.user) || IsBlank(c.url)))
      || (IsBlank(c.dir) && !c.deleteAll))
  }

  /** `checkConfiguration()` of `com.dxfeed`: the same, where a single file also counts
      as something to process. */
  function CheckConfigurationWithFile(c: AppConfig): (ok: bool)
    ensures ok <==> CredentialsAllOrNone(c) && (!IsBlank(c.dir) || !IsBlank(c.file) || c.deleteAll)
  {
    !(   (!IsBlank(c.url) && (IsBlank(c.user) || IsBlank(c.token)))
      || (!IsBlank(c.user) && (IsBlank(c.url) || IsBlank(c.token)))
      || (!IsBlank(c.token) && (IsBlank(c.user) || IsBlank(c.url)))
      || (IsBlank(c.dir) && IsBlank(c.file) && !c.deleteAll))
  }

  /** The `com.dxfeed` check accepts everything the `ws.slink` one does. */
  lemma FileCheckWeaker(c: AppConfig)
    ensures CheckConfiguration(c) ==> CheckConfigurationWithFile(c)
    ensures IsBlank(c.file) ==> (CheckConfiguration(c) <==> CheckConfigurationWithFile(c))
  {
  }

  /** `ws.slink.DocProcessorApplicationRunner` */
  class Runner {
    const config: AppConfig
    const processor: Processor

    constructor (config: AppConfig, processor: Processor)
      ensures this.config == config && this.processor == processor
    {
      this.config := config;
      this.processor := processor;
    }

    /** `run(args)`: exit code 1 after a failed check without touching the server,
        otherwise one run of the processor and exit code 0. */
    method Run(root: Directory, rootParentProps: map<string, string>) returns (exitCode: Option<int>)
      requires root.path == config.dir
      modifies processor.Facade()
      ensures !CheckConfiguration(config) ==>
                exitCode == Some(1)
                && processor.Facade().store == old(processor.Facade().store)
                && processor.Facade().channel == old(processor.Facade().channel)
      ensures CheckConfiguration(config) ==>
                var r := processor.ProcessSpec(old(processor.Facade().store), old(processor.Facade().channel),
                                               root, rootParentProps);
                processor.Facade().store == r.store && processor.Facade().channel == r.channel
                && exitCode == if r.aborted then None else Some(0)
    {
      var code := 0;
      if !CheckConfiguration(config) {
        code := 1;
      } else {
        var summary := processor.Process(root, rootParentProps);
        if summary.None? {
          return None;
        }
      }
      exitCode := Some(code);
    }
  }

  /** `com.dxfeed.DocProcessorApplicationRunner`; `clientInitialized` is
      `zendeskFacade.initialized()`. */
  class FileRunner {
    const config: AppConfig
    const processor: Processor
    const clientInitialized: bool

    constructor (config: AppConfig, processor: Processor, clientInitialized: bool)
      ensures this.config == config && this.processor == processor && this.clientInitialized == clientInitialized
    {
      this.config := config;
      this.processor := processor;
      this.clientInitialized := clientInitialized;
    }

    /** `run(args)`.  In test mode the file named by `test` (its lines `testLines`,
        rendered as `testRendered`) is read under an unnamed category and section and its
        rendering printed, `printed` being what `println` receives (`Optional` of the
        rendering) when the file could be read. */
    method Run(root: Directory, rootParentProps: map<string, string>,
               testLines: Option<seq<string>>, testRendered: Option<string>)
      returns (exitCode: Option<int>, printed: Option<Option<string>>)
      requires root.path == config.dir
      modifies processor.Facade()
      ensures !IsBlank(config.test) ==>
                exitCode == Some(0)
                && printed == (if testLines.Some? then Some(testRendered) else None)
                && processor.Facade().store == old(processor.Facade().store)
                && processor.Facade().channel == old(processor.Facade().channel)
      ensures IsBlank(config.test) && (!clientInitialized || !CheckConfigurationWithFile(config)) ==>
                exitCode == Some(if !clientInitialized then 2 else 1) && printed == None
                && processor.Facade().store == old(processor.Facade().store)
                && processor.Facade().channel == old(processor.Facade().channel)
      ensures IsBlank(config.test) && clientInitialized && CheckConfigurationWithFile(config) ==>
                var r := processor.ProcessSpec(old(processor.Facade().store), old(processor.Facade().channel),
                                               root, rootParentProps);
                processor.Facade().store == r.store && processor.Facade().channel == r.channel
                && exitCode == (if r.aborted then None else Some(0)) && printed == None
    {
      var code := 0;
      printed := None;
      if !IsBlank(config.test) {
        var hierarchy := new ZendeskHierarchy();
        var category := new Category();
        var section := new Section();
        hierarchy.category, hierarchy.section := category, section;
        var d := processor.directoryProcessor.fileProcessor.Read(config.test, testLines, hierarchy);
        if d.Some? {
          printed := Some(testRendered);
        }
      } else {
        if !clientInitialized {
          code := 2;
        } else {
          if !CheckConfigurationWithFile(config) {
            code := 1;
          } else {
            var summary := processor.Process(root, rootParentProps);
            if summary.None? {
              return None, None;
            }
          }
        }
      }
      exitCode := Some(code);
    }
  }
}
