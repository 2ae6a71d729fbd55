/** The launcher APIs as the facade sees them. The concrete launchers (Slurm, MPI-style
    launchers, the default fallback) read environment variables; here each is an opaque record
    of what it would report. */
module Launcher {

  /** A diagnostic raised while a query runs (a Python warning). */
  datatype Warning = Warning(category: string, message: string)

  /** How a query ends: with a value, in the text form an f-string prints, or with an exception. */
  datatype Outcome = Returned(value: string) | Raised(error: string)

  /** What a launcher does when one query is asked of it: how the query ends, and the
      warnings it raised on the way (before returning or before raising). */
  datatype Reply = Reply(outcome: Outcome, warnings: seq<Warning>)

  /** One launcher API: its name, its priority (a higher value is tried first), whether
      `is_launcher()` holds in the current environment, and its reply to each query it
      defines. A query name missing from `answers` is an attribute the launcher does not have.
      Every real launcher inherits the base class's queries, so for a registered launcher such
      a name would not be missing; nothing here ties `answers` to the base class's query set,
      so a record may lack a query that the Python object would inherit. */
  datatype API = API(name: string, priority: int, isLauncher: bool, answers: map<string, Reply>)

  /** The exception Python raises for a missing attribute. */
  const AttributeError: string := "AttributeError"
}
