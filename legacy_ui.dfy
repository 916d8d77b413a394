/**
 * The older copy of the settings panel.  Its category editor, feed picker and channel
 * grouping are the same code as the current panel's and are modelled there; its
 * switches differ: translation, summary and classification.
 */
module LegacyUi {
  import V = Values
  import Config
  import BotUi

  class ConfigView {
    var config: Config.Settings
    const manager: Config.ConfigManager

    constructor(config: Config.Settings, manager: Config.ConfigManager)
      ensures this.config == config && this.manager == manager
    {
      this.config := config;
      this.manager := manager;
    }

    /** Flip a switch and hand the configuration to `update_config` (whose result is ignored). */
    method Toggle(key: string, default: bool)
      modifies this, manager
      ensures config == BotUi.Flipped(old(config), key, default)
      ensures manager.config == old(manager.config) + config
    {
      var current := V.Switch(config, key, default);
      config := config[key := V.VBool(!current)];
      var saved := manager.UpdateConfig(config, true);
    }

    /** The translation switch, on by default. */
    method ToggleTranslate()
      modifies this, manager
      ensures config == BotUi.Flipped(old(config), "translate", true)
      ensures manager.config == old(manager.config) + config
    {
      Toggle("translate", true);
    }

    /** The summary switch, on by default. */
    method ToggleSummarize()
      modifies this, manager
      ensures config == BotUi.Flipped(old(config), "summarize", true)
      ensures manager.config == old(manager.config) + config
    {
      Toggle("summarize", true);
    }

    /** The classification switch, off by default. */
    method ToggleClassify()
      modifies this, manager
      ensures config == BotUi.Flipped(old(config), "classify", false)
      ensures manager.config == old(manager.config) + config
    {
      Toggle("classify", false);
    }
  }

  /**
   * The defaults of the older panel: on a configuration without the keys, the first
   * press turns translation and summaries off and classification on.
   */
  lemma FirstPressDefaults(c: Config.Settings)
    requires "translate" !in c && "summarize" !in c && "classify" !in c
    ensures BotUi.Flipped(c, "translate", true)["translate"] == V.VBool(false)
    ensures BotUi.Flipped(c, "summarize", true)["summarize"] == V.VBool(false)
    ensures BotUi.Flipped(c, "classify", false)["classify"] == V.VBool(true)
  {
  }
}
