/** The constants of the tool's configuration module, which is not part of this model: they are parameters. */
module Config {

  datatype Config = Config(
    lensKey: string,            // the template's top-level lens key
    standardLensAlias: string,  // alias of the standard Well-Architected lens
    standardLensLabel: string,  // lens name written for the standard lens
    eksLensAlias: string,       // the --customlens value that selects the EKS lens
    eksLensLabel: string)       // name of the EKS lens, looked up among the published lenses
}
