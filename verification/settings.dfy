/** The configuration record the converter reads from its JSON config file.
    Only the fields the modelled functions use are kept; timeouts are passed
    to process launching, which is not modelled. */
module Settings {

  /** One row of `storage.authors`: a store user name and the e-mail to commit under. */
  datatype AuthorEntry = AuthorEntry(user: string, email: string)

  /** The `onec` section: how to start the 1C platform executable. */
  datatype OnecOptions = OnecOptions(
    startPath: string,
    logFilePath: string,
    reportConvertProcessorPath: string)

  /** The `info_base` section: the information base the platform opens. */
  datatype InfoBase = InfoBase(
    windowsAuth: bool,
    user: string,
    password: string,
    connectionString: string)

  /** The `storage` section: the configuration store and its report files. */
  datatype StorageOptions = StorageOptions(
    path: string,
    user: string,
    password: string,
    reportPath: string,
    jsonReportPath: string,
    authors: seq<AuthorEntry>)

  /** The `git` section: the target repository. */
  datatype GitOptions = GitOptions(
    path: string,
    configurationSrcPath: string,
    defaultUserEmail: string)

  datatype Config = Config(
    onec: OnecOptions,
    infoBase: InfoBase,
    storage: StorageOptions,
    git: GitOptions)
}
