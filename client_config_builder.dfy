/** The fluent, mutable builder for client settings. */
module ConfigBuilder {
  import opened Base
  import opened Config

  class ClientConfigBuilder {
    var followRedirects: bool
    var followSslRedirects: bool
    var readTimeout: Option<Millis>
    var writeTimeout: Option<Millis>
    var retryOnConnectionFailure: bool
    var connectTimeout: Option<Millis>

    /** The six fields, read as the config they would produce. */
    function Fields(): ClientConfig
      reads this
    {
      ClientConfig(followRedirects, followSslRedirects, readTimeout, writeTimeout, retryOnConnectionFailure, connectTimeout)
    }

    /** The field initialisers: the three flags on, no timeout set. */
    constructor ()
      ensures Fields() == ClientConfig(true, true, None, None, true, None)
    {
      followRedirects := true;
      followSslRedirects := true;
      readTimeout := None;
      writeTimeout := None;
      retryOnConnectionFailure := true;
      connectTimeout := None;
    }

    method SetFollowRedirects(value: bool) returns (self: ClientConfigBuilder)
      modifies this
      ensures self == this
      ensures Fields() == old(Fields()).(followRedirects := value)
    {
      followRedirects := value;
      self := this;
    }

    method SetFollowSslRedirects(value: bool) returns (self: ClientConfigBuilder)
      modifies this
      ensures self == this
      ensures Fields() == old(Fields()).(followSslRedirects := value)
    {
      followSslRedirects := value;
      self := this;
    }

    method SetReadTimeout(value: Option<Millis>) returns (self: ClientConfigBuilder)
      modifies this
      ensures self == this
      ensures Fields() == old(Fields()).(readTimeout := value)
    {
      readTimeout := value;
      self := this;
    }

    method SetWriteTimeout(value: Option<Millis>) returns (self: ClientConfigBuilder)
      modifies this
      ensures self == this
      ensures Fields() == old(Fields()).(writeTimeout := value)
    {
      writeTimeout := value;
      self := this;
    }

    method SetRetryOnConnectionFailure(value: bool) returns (self: ClientConfigBuilder)
      modifies this
      ensures self == this
      ensures Fields() == old(Fields()).(retryOnConnectionFailure := value)
    {
      retryOnConnectionFailure := value;
      self := this;
    }

    method SetConnectTimeout(value: Option<Millis>) returns (self: ClientConfigBuilder)
      modifies this
      ensures self == this
      ensures Fields() == old(Fields()).(connectTimeout := value)
    {
      connectTimeout := value;
      self := this;
    }

    /** createClientConfig: a config holding the builder's current fields; the builder is
        left as it was, so it can be changed and used again. */
    method CreateClientConfig() returns (config: ClientConfig)
      ensures config == Fields()
    {
      config := Config.CreateClientConfig(followRedirects, followSslRedirects, readTimeout, writeTimeout,
                                          retryOnConnectionFailure, connectTimeout);
    }
  }

  /** A config from a builder nobody touched: the same as defaultConfig() except that its
      read timeout is absent rather than zero. */
  method UntouchedBuilderConfig() returns (config: ClientConfig)
    ensures config == DefaultConfig().(readTimeout := None)
    ensures config != DefaultConfig()
  {
    var builder := new ClientConfigBuilder();
    config := builder.CreateClientConfig();
  }

  /** The chain from the repository's configuration test: each setter changes its own field
      and returns the same builder, so the chained calls configure one builder. */
  method ConfigurationTestChain() returns (config: ClientConfig)
    ensures config == ClientConfig(true, true, Some(3600000), Some(120000), false, Some(30000))
  {
    var builder := new ClientConfigBuilder();
    var b := builder.SetConnectTimeout(Some(30000));
    b := b.SetWriteTimeout(Some(120000));
    b := b.SetRetryOnConnectionFailure(false);
    b := b.SetReadTimeout(Some(3600000));
    config := b.CreateClientConfig();
  }

  /** A later call to a setter overwrites the value an earlier call stored. */
  method LastSetterWins(builder: ClientConfigBuilder, first: Option<Millis>, second: Option<Millis>)
    modifies builder
    ensures builder.Fields() == old(builder.Fields()).(readTimeout := second)
  {
    var b := builder.SetReadTimeout(first);
    b := b.SetReadTimeout(second);
  }
}
