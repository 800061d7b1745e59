/**
 * The configuration files both generators write next to the project: the
 * VS Code settings (files hidden from the explorer), the workspace, the
 * OmniSharp options and the .editorconfig. Their bodies are fixed texts;
 * the model carries them as a value and does not spell them out.
 */
module ConfigTexts {
  import Paths

  /** The four fixed bodies, one per configuration file. */
  datatype Texts = Texts(
    settingsJson: string,
    workspaceJson: string,
    omniSharpJson: string,
    editorConfig: string)

  /** The files both generators write, by project directory. */
  function VSCodeDirectory(projectDirectory: string): string {
    Paths.Combine(projectDirectory, ".vscode")
  }

  function SettingsFile(projectDirectory: string): string {
    Paths.Combine(VSCodeDirectory(projectDirectory), "settings.json")
  }

  function WorkspaceFile(projectDirectory: string, projectName: string): string {
    Paths.Combine(projectDirectory, projectName + ".code-workspace")
  }

  function OmniSharpFile(projectDirectory: string): string {
    Paths.Combine(projectDirectory, "omnisharp.json")
  }

  function EditorConfigFile(projectDirectory: string): string {
    Paths.Combine(projectDirectory, ".editorconfig")
  }
}
